/** The fixed-capacity builder and the two record serialisers that print through it. */
module Serializer {
  import opened Bytes
  import opened CanonicalRecord
  import Utf8
  import Json
  import Csv

  const SIZE_MAX: nat := 0xFFFF_FFFF_FFFF_FFFF

  /** The bytes a capacity leaves for text: one is kept for the terminator. */
  function Room(capacity: nat): nat { if capacity == 0 then 0 else capacity - 1 }

  function Min(a: nat, b: nat): nat { if a < b then a else b }

  /** What a buffer holds after a text was printed into it: the longest prefix that fits, then NUL. */
  predicate Holds(buffer: seq<byte>, text: seq<byte>) {
    buffer != [] ==>
      var n := Min(|text|, |buffer| - 1);
      buffer[..n] == text[..n] && buffer[n] == 0
  }

  /** tcd_kpm_builder_t. The ghost text is what an unbounded builder would hold. */
  class Builder {
    var data: array?<byte>
    var capacity: nat
    var length: nat
    var overflow: bool
    ghost var text: seq<byte>

    ghost predicate Valid()
      reads this, data
    {
      && capacity <= SIZE_MAX
      && (data != null ==> data.Length == capacity && Holds(data[..], text))
      && length == Min(|text|, SIZE_MAX)
      && (overflow <==> |text| > if data == null then 0 else Room(capacity))
    }

    /** builder_init */
    constructor (data: array?<byte>, capacity: nat)
      requires capacity <= SIZE_MAX && (data != null ==> data.Length == capacity)
      modifies if data == null then {} else {data}
      ensures Valid() && text == [] && this.data == data && this.capacity == capacity
    {
      this.data := data;
      this.capacity := capacity;
      this.length := 0;
      this.overflow := false;
      this.text := [];
      new;
      if data != null && capacity > 0 {
        data[0] := 0;
      }
    }

    /** The memcpy: as many leading bytes as fit behind the stored text. */
    method CopyBytes(bytes: seq<byte>) returns (copied: nat)
      requires Valid()
      modifies data
      ensures data == old(data)
      ensures copied == Copied(bytes)
      ensures data != null && data.Length > 0 ==> Overwrites(old(data[..]), data[..], length, bytes, copied)
    {
      copied := 0;
      if data != null && capacity > 0 && length < capacity - 1 {
        var available := capacity - 1 - length;
        copied := if |bytes| < available then |bytes| else available;
        forall i | 0 <= i < copied {
          data[length + i] := bytes[i];
        }
      }
    }

    ghost function Copied(bytes: seq<byte>): nat
      reads this, data
    {
      if data != null && capacity > 0 && length < capacity - 1 then Min(|bytes|, capacity - 1 - length) else 0
    }

    /** builder_append_bytes: stores what fits, counts everything, stays terminated. */
    method AppendBytes(bytes: seq<byte>)
      requires Valid() && |bytes| <= SIZE_MAX
      modifies this, data
      ensures Valid() && data == old(data) && capacity == old(capacity)
      ensures text == old(text) + bytes
    {
      hide Holds;
      hide Overwrites;
      var copied := CopyBytes(bytes);
      ghost var middle := if data == null then [] else data[..];
      if |bytes| > SIZE_MAX - length {
        overflow := true;
        length := SIZE_MAX;
      } else {
        length := length + |bytes|;
      }
      if copied < |bytes| {
        overflow := true;
      }
      text := text + bytes;
      if data != null && capacity > 0 {
        StoredPrefix(old(text), bytes, old(data[..]), middle, old(length), copied);
        var terminator := if length < capacity then length else capacity - 1;
        assert terminator == Min(|text|, |middle| - 1);
        data[terminator] := 0;
        assert data[..] == middle[terminator := 0];
      } else if data != null {
        EmptyHolds(text);
        assert data[..] == [];
      }
    }

    static lemma EmptyHolds(text: seq<byte>)
      ensures Holds([], text)
    {
    }

    /** now is was with the first n given bytes written at an offset. */
    static ghost predicate Overwrites(was: seq<byte>, now: seq<byte>, offset: nat, bytes: seq<byte>, n: nat) {
      && |now| == |was|
      && n <= |bytes|
      && (n > 0 ==> offset + n <= |was| && now == was[..offset] + bytes[..n] + was[offset + n..])
      && (n == 0 ==> now == was)
    }

    /** The copy and the terminator leave the longest prefix of the extended text. */
    static lemma StoredPrefix(text: seq<byte>, bytes: seq<byte>, was: seq<byte>, now: seq<byte>, offset: nat, n: nat)
      requires was != [] && Holds(was, text)
      requires offset == Min(|text|, SIZE_MAX) && |was| <= SIZE_MAX
      requires n == if offset < |was| - 1 then Min(|bytes|, |was| - 1 - offset) else 0
      requires Overwrites(was, now, offset, bytes, n)
      ensures |now| == |was|
      ensures Holds(now[Min(|text + bytes|, |was| - 1) := 0], text + bytes)
    {
      var m := Min(|text + bytes|, |was| - 1);
      var k := Min(|text|, |was| - 1);
      var after := now[m := 0];
      if n > 0 {
        assert after[..m] == was[..k] + bytes[..n];
        assert (text + bytes)[..m] == text[..k] + bytes[..n];
      } else {
        assert m == k;
        assert after[..m] == was[..k];
        assert (text + bytes)[..m] == text[..k];
      }
    }

    // The numeral printers use a 32-byte scratch buffer, the double printer a 64-byte one.

    method AppendUnsigned(n: u64)
      requires Valid()
      modifies this, data
      ensures Valid() && data == old(data) && capacity == old(capacity)
      ensures text == old(text) + Decimal(n)
    {
      NumeralLengths();
      assert |Decimal(n)| < 32;
      AppendBytes(Decimal(n));
    }

    method AppendSigned(n: i64)
      requires Valid()
      modifies this, data
      ensures Valid() && data == old(data) && capacity == old(capacity)
      ensures text == old(text) + SignedDecimal(n)
    {
      NumeralLengths();
      assert |SignedDecimal(n)| < 32;
      AppendBytes(SignedDecimal(n));
    }

    method AppendDouble(d: Double)
      requires Valid() && d.Finite?
      modifies this, data
      ensures Valid() && data == old(data) && capacity == old(capacity)
      ensures text == old(text) + d.text
    {
      assert |d.text| < 64;
      AppendBytes(d.text);
    }

    // ---- JSON ----

    /** The switch of json_append_string. */
    method JsonAppendEscaped(b: byte)
      requires Valid()
      modifies this, data
      ensures Valid() && data == old(data) && capacity == old(capacity)
      ensures text == old(text) + Json.Escape(b)
    {
      hide Holds;
      match b {
        case 34 => AppendBytes([92, 34]);
        case 92 => AppendBytes([92, 92]);
        case 8 => AppendBytes([92, 98]);
        case 12 => AppendBytes([92, 102]);
        case 10 => AppendBytes([92, 110]);
        case 13 => AppendBytes([92, 114]);
        case 9 => AppendBytes([92, 116]);
        case _ =>
          if b < 0x20 {
            AppendBytes([92, 117, 48, 48, Json.HexDigit(b / 16), Json.HexDigit(b % 16)]);
          } else {
            AppendBytes([b]);
          }
      }
    }

    /** json_append_string; a C string is its bytes before the NUL. */
    method JsonAppendString(value: seq<byte>)
      requires Valid()
      modifies this, data
      ensures Valid() && data == old(data) && capacity == old(capacity)
      ensures text == old(text) + Json.Quoted(value)
    {
      hide Valid;
      hide Json.Escape;
      AppendBytes([34]);
      assert value[..0] == [];
      var cursor := 0;
      while cursor < |value|
        invariant 0 <= cursor <= |value|
        invariant Valid() && data == old(data) && capacity == old(capacity)
        invariant text == old(text) + ([34] + Json.Body(value[..cursor]))
      {
        ghost var head := Json.Body(value[..cursor]);
        JsonAppendEscaped(value[cursor]);
        BodyExtends(value, cursor);
        assert [34] + (head + Json.Escape(value[cursor])) == ([34] + head) + Json.Escape(value[cursor]);
        cursor := cursor + 1;
      }
      assert value[..cursor] == value;
      AppendBytes([34]);
      assert text == old(text) + ([34] + Json.Body(value) + [34]);
    }

    static lemma BodyExtends(value: seq<byte>, cursor: nat)
      requires cursor < |value|
      ensures Json.Body(value[..cursor + 1]) == Json.Body(value[..cursor]) + Json.Escape(value[cursor])
    {
      assert value[..cursor + 1] == value[..cursor] + [value[cursor]];
      Json.BodyConcat(value[..cursor], [value[cursor]]);
      var one := [value[cursor]];
      assert one[1..] == [];
      assert Json.Body(one) == Json.Escape(value[cursor]) + Json.Body([]);
    }

    /** json_key: a comma except before the first member. */
    method JsonKey(key: seq<byte>, first: bool) returns (first': bool)
      requires Valid()
      modifies this, data
      ensures Valid() && data == old(data) && capacity == old(capacity) && !first'
      ensures text == WithKey(old(text), key, first)
    {
      if !first { AppendBytes([44]); }
      assert text == old(text) + if first then [] else [44];
      first' := false;
      JsonAppendString(key);
      AppendBytes([58]);
    }

    method JsonName(name: Option<string>)
      requires Valid() && name.Some?
      modifies this, data
      ensures Valid() && data == old(data) && capacity == old(capacity)
      ensures text == old(text) + Json.ScalarText(Name(name))
    {
      JsonAppendString(Ascii(name.value));
    }

    method JsonOptionalString(present: bool, value: seq<byte>)
      requires Valid()
      modifies this, data
      ensures Valid() && data == old(data) && capacity == old(capacity)
      ensures text == old(text) + Json.ScalarText(OptionalText(When(present, value)))
    {
      if present { JsonAppendString(value); } else { AppendBytes(Json.NullText()); }
    }

    method JsonOptionalU64(present: bool, value: u64)
      requires Valid()
      modifies this, data
      ensures Valid() && data == old(data) && capacity == old(capacity)
      ensures text == old(text) + Json.ScalarText(OptionalU64(When(present, value)))
    {
      if present { AppendUnsigned(value); } else { AppendBytes(Json.NullText()); }
    }

    method JsonOptionalU32(present: bool, value: u32)
      requires Valid()
      modifies this, data
      ensures Valid() && data == old(data) && capacity == old(capacity)
      ensures text == old(text) + Json.ScalarText(OptionalU32(When(present, value)))
    {
      if present { AppendUnsigned(value); } else { AppendBytes(Json.NullText()); }
    }

    method JsonOptionalI64(present: bool, value: i64)
      requires Valid()
      modifies this, data
      ensures Valid() && data == old(data) && capacity == old(capacity)
      ensures text == old(text) + Json.ScalarText(OptionalI64(When(present, value)))
    {
      if present { AppendSigned(value); } else { AppendBytes(Json.NullText()); }
    }

    method JsonOptionalDouble(present: bool, value: Double)
      requires Valid() && (present ==> value.Finite?)
      modifies this, data
      ensures Valid() && data == old(data) && capacity == old(capacity)
      ensures text == old(text) + Json.ScalarText(OptionalReal(When(present, value)))
    {
      if present { AppendDouble(value); } else { AppendBytes(Json.NullText()); }
    }

    method JsonOptionalBool(present: bool, value: bool)
      requires Valid()
      modifies this, data
      ensures Valid() && data == old(data) && capacity == old(capacity)
      ensures text == old(text) + Json.ScalarText(OptionalBool(When(present, value)))
    {
      if present { AppendBytes(if value then Json.TrueText() else Json.FalseText()); }
      else { AppendBytes(Json.NullText()); }
    }

    // ---- CSV ----

    /** csv_append_string */
    method CsvAppendString(value: seq<byte>)
      requires Valid()
      modifies this, data
      ensures Valid() && data == old(data) && capacity == old(capacity)
      ensures text == old(text) + Csv.Quoted(value)
    {
      hide Valid;
      AppendBytes([34]);
      var cursor := 0;
      while cursor < |value|
        invariant 0 <= cursor <= |value|
        invariant Valid() && data == old(data) && capacity == old(capacity)
        invariant text == old(text) + [34] + Csv.DoubleQuotes(value[..cursor])
      {
        if value[cursor] == 34 { AppendBytes([34, 34]); } else { AppendBytes([value[cursor]]); }
        DoubleQuotesExtend(value[..cursor], value[cursor]);
        assert value[..cursor + 1] == value[..cursor] + [value[cursor]];
        assert text == old(text) + [34] + Csv.DoubleQuotes(value[..cursor + 1]);
        cursor := cursor + 1;
      }
      assert value[..cursor] == value;
      AppendBytes([34]);
      assert text == old(text) + ([34] + Csv.DoubleQuotes(value) + [34]);
    }

    static lemma {:induction false} DoubleQuotesExtend(s: seq<byte>, b: byte)
      ensures Csv.DoubleQuotes(s + [b]) == Csv.DoubleQuotes(s) + (if b == 34 then [34, 34] else [b])
    {
      if s == [] {
        assert [b][1..] == [];
        assert s + [b] == [b];
      } else {
        DoubleQuotesExtend(s[1..], b);
        assert (s + [b])[1..] == s[1..] + [b];
      }
    }

    /** csv_separator */
    method CsvSeparator()
      requires Valid()
      modifies this, data
      ensures Valid() && data == old(data) && capacity == old(capacity)
      ensures text == WithComma(old(text))
    {
      AppendBytes([44]);
    }

    method CsvName(name: Option<string>)
      requires Valid() && name.Some?
      modifies this, data
      ensures Valid() && data == old(data) && capacity == old(capacity)
      ensures text == old(text) + Csv.CellText(Name(name))
    {
      CsvAppendString(Ascii(name.value));
    }

    method CsvOptionalString(present: bool, value: seq<byte>)
      requires Valid()
      modifies this, data
      ensures Valid() && data == old(data) && capacity == old(capacity)
      ensures text == old(text) + Csv.CellText(OptionalText(When(present, value)))
    {
      if present { CsvAppendString(value); }
    }

    method CsvOptionalU64(present: bool, value: u64)
      requires Valid()
      modifies this, data
      ensures Valid() && data == old(data) && capacity == old(capacity)
      ensures text == old(text) + Csv.CellText(OptionalU64(When(present, value)))
    {
      if present { AppendUnsigned(value); }
    }

    method CsvOptionalU32(present: bool, value: u32)
      requires Valid()
      modifies this, data
      ensures Valid() && data == old(data) && capacity == old(capacity)
      ensures text == old(text) + Csv.CellText(OptionalU32(When(present, value)))
    {
      if present { AppendUnsigned(value); }
    }

    method CsvOptionalI64(present: bool, value: i64)
      requires Valid()
      modifies this, data
      ensures Valid() && data == old(data) && capacity == old(capacity)
      ensures text == old(text) + Csv.CellText(OptionalI64(When(present, value)))
    {
      if present { AppendSigned(value); }
    }

    method CsvOptionalDouble(present: bool, value: Double)
      requires Valid() && (present ==> value.Finite?)
      modifies this, data
      ensures Valid() && data == old(data) && capacity == old(capacity)
      ensures text == old(text) + Csv.CellText(OptionalReal(When(present, value)))
    {
      if present { AppendDouble(value); }
    }

    method CsvOptionalBool(present: bool, value: bool)
      requires Valid()
      modifies this, data
      ensures Valid() && data == old(data) && capacity == old(capacity)
      ensures text == old(text) + Csv.CellText(OptionalBool(When(present, value)))
    {
      if present { AppendBytes(if value then Json.TrueText() else Json.FalseText()); }
    }

    // ---- the n-th member of a JSONL line, by type of value ----

    method JsonUnsignedField(n: nat, key: seq<byte>, value: u64, ghost f: seq<Scalar>)
      requires Valid() && |f| == FIELD_COUNT && n < FIELD_COUNT && text == JsonPrinted(f, n)
      requires Json.FieldKey(n) == key && f[n] == Unsigned(value)
      modifies this, data
      ensures Valid() && data == old(data) && capacity == old(capacity)
      ensures text == JsonPrinted(f, n + 1)
    {
      hide Valid;
      hide JsonPrinted;
      hide WithKey;
      var _ := JsonKey(key, n == 0);
      AppendUnsigned(value);
      JsonPrintedNext(f, n);
    }

    method JsonStringField(n: nat, key: seq<byte>, value: seq<byte>, ghost f: seq<Scalar>)
      requires Valid() && |f| == FIELD_COUNT && n < FIELD_COUNT && text == JsonPrinted(f, n)
      requires Json.FieldKey(n) == key && f[n] == Text(value)
      modifies this, data
      ensures Valid() && data == old(data) && capacity == old(capacity)
      ensures text == JsonPrinted(f, n + 1)
    {
      hide Valid;
      hide JsonPrinted;
      hide WithKey;
      var _ := JsonKey(key, n == 0);
      JsonAppendString(value);
      JsonPrintedNext(f, n);
    }

    method JsonNameField(n: nat, key: seq<byte>, name: Option<string>, ghost f: seq<Scalar>)
      requires Valid() && |f| == FIELD_COUNT && n < FIELD_COUNT && text == JsonPrinted(f, n)
      requires Json.FieldKey(n) == key && f[n] == Name(name)
      requires name.Some?
      modifies this, data
      ensures Valid() && data == old(data) && capacity == old(capacity)
      ensures text == JsonPrinted(f, n + 1)
    {
      hide Valid;
      hide JsonPrinted;
      hide WithKey;
      var _ := JsonKey(key, n == 0);
      JsonName(name);
      JsonPrintedNext(f, n);
    }

    method JsonOptionalStringField(n: nat, key: seq<byte>, present: bool, value: seq<byte>, ghost f: seq<Scalar>)
      requires Valid() && |f| == FIELD_COUNT && n < FIELD_COUNT && text == JsonPrinted(f, n)
      requires Json.FieldKey(n) == key && f[n] == OptionalText(When(present, value))
      modifies this, data
      ensures Valid() && data == old(data) && capacity == old(capacity)
      ensures text == JsonPrinted(f, n + 1)
    {
      hide Valid;
      hide JsonPrinted;
      hide WithKey;
      var _ := JsonKey(key, n == 0);
      JsonOptionalString(present, value);
      JsonPrintedNext(f, n);
    }

    method JsonOptionalU64Field(n: nat, key: seq<byte>, present: bool, value: u64, ghost f: seq<Scalar>)
      requires Valid() && |f| == FIELD_COUNT && n < FIELD_COUNT && text == JsonPrinted(f, n)
      requires Json.FieldKey(n) == key && f[n] == OptionalU64(When(present, value))
      modifies this, data
      ensures Valid() && data == old(data) && capacity == old(capacity)
      ensures text == JsonPrinted(f, n + 1)
    {
      hide Valid;
      hide JsonPrinted;
      hide WithKey;
      var _ := JsonKey(key, n == 0);
      JsonOptionalU64(present, value);
      JsonPrintedNext(f, n);
    }

    method JsonOptionalU32Field(n: nat, key: seq<byte>, present: bool, value: u32, ghost f: seq<Scalar>)
      requires Valid() && |f| == FIELD_COUNT && n < FIELD_COUNT && text == JsonPrinted(f, n)
      requires Json.FieldKey(n) == key && f[n] == OptionalU32(When(present, value))
      modifies this, data
      ensures Valid() && data == old(data) && capacity == old(capacity)
      ensures text == JsonPrinted(f, n + 1)
    {
      hide Valid;
      hide JsonPrinted;
      hide WithKey;
      var _ := JsonKey(key, n == 0);
      JsonOptionalU32(present, value);
      JsonPrintedNext(f, n);
    }

    method JsonOptionalI64Field(n: nat, key: seq<byte>, present: bool, value: i64, ghost f: seq<Scalar>)
      requires Valid() && |f| == FIELD_COUNT && n < FIELD_COUNT && text == JsonPrinted(f, n)
      requires Json.FieldKey(n) == key && f[n] == OptionalI64(When(present, value))
      modifies this, data
      ensures Valid() && data == old(data) && capacity == old(capacity)
      ensures text == JsonPrinted(f, n + 1)
    {
      hide Valid;
      hide JsonPrinted;
      hide WithKey;
      var _ := JsonKey(key, n == 0);
      JsonOptionalI64(present, value);
      JsonPrintedNext(f, n);
    }

    method JsonOptionalDoubleField(n: nat, key: seq<byte>, present: bool, value: Double, ghost f: seq<Scalar>)
      requires Valid() && |f| == FIELD_COUNT && n < FIELD_COUNT && text == JsonPrinted(f, n)
      requires Json.FieldKey(n) == key && f[n] == OptionalReal(When(present, value))
      requires present ==> value.Finite?
      modifies this, data
      ensures Valid() && data == old(data) && capacity == old(capacity)
      ensures text == JsonPrinted(f, n + 1)
    {
      hide Valid;
      hide JsonPrinted;
      hide WithKey;
      var _ := JsonKey(key, n == 0);
      JsonOptionalDouble(present, value);
      JsonPrintedNext(f, n);
    }

    method JsonOptionalBoolField(n: nat, key: seq<byte>, present: bool, value: bool, ghost f: seq<Scalar>)
      requires Valid() && |f| == FIELD_COUNT && n < FIELD_COUNT && text == JsonPrinted(f, n)
      requires Json.FieldKey(n) == key && f[n] == OptionalBool(When(present, value))
      modifies this, data
      ensures Valid() && data == old(data) && capacity == old(capacity)
      ensures text == JsonPrinted(f, n + 1)
    {
      hide Valid;
      hide JsonPrinted;
      hide WithKey;
      var _ := JsonKey(key, n == 0);
      JsonOptionalBool(present, value);
      JsonPrintedNext(f, n);
    }

    // ---- the n-th cell of a CSV row, by type of value ----

    method CsvUnsignedField(n: nat, value: u64, ghost f: seq<Scalar>)
      requires Valid() && |f| == FIELD_COUNT && n < FIELD_COUNT && text == CsvPrinted(f, n)
      requires f[n] == Unsigned(value)
      modifies this, data
      ensures Valid() && data == old(data) && capacity == old(capacity)
      ensures text == CsvPrinted(f, n + 1)
    {
      hide Valid;
      hide CsvPrinted;
      hide WithComma;
      if n > 0 { CsvSeparator(); }
      AppendUnsigned(value);
      CsvPrintedNext(f, n);
    }

    method CsvStringField(n: nat, value: seq<byte>, ghost f: seq<Scalar>)
      requires Valid() && |f| == FIELD_COUNT && n < FIELD_COUNT && text == CsvPrinted(f, n)
      requires f[n] == Text(value)
      modifies this, data
      ensures Valid() && data == old(data) && capacity == old(capacity)
      ensures text == CsvPrinted(f, n + 1)
    {
      hide Valid;
      hide CsvPrinted;
      hide WithComma;
      if n > 0 { CsvSeparator(); }
      CsvAppendString(value);
      CsvPrintedNext(f, n);
    }

    method CsvNameField(n: nat, name: Option<string>, ghost f: seq<Scalar>)
      requires Valid() && |f| == FIELD_COUNT && n < FIELD_COUNT && text == CsvPrinted(f, n)
      requires f[n] == Name(name)
      requires name.Some?
      modifies this, data
      ensures Valid() && data == old(data) && capacity == old(capacity)
      ensures text == CsvPrinted(f, n + 1)
    {
      hide Valid;
      hide CsvPrinted;
      hide WithComma;
      if n > 0 { CsvSeparator(); }
      CsvName(name);
      CsvPrintedNext(f, n);
    }

    method CsvOptionalStringField(n: nat, present: bool, value: seq<byte>, ghost f: seq<Scalar>)
      requires Valid() && |f| == FIELD_COUNT && n < FIELD_COUNT && text == CsvPrinted(f, n)
      requires f[n] == OptionalText(When(present, value))
      modifies this, data
      ensures Valid() && data == old(data) && capacity == old(capacity)
      ensures text == CsvPrinted(f, n + 1)
    {
      hide Valid;
      hide CsvPrinted;
      hide WithComma;
      if n > 0 { CsvSeparator(); }
      CsvOptionalString(present, value);
      CsvPrintedNext(f, n);
    }

    method CsvOptionalU64Field(n: nat, present: bool, value: u64, ghost f: seq<Scalar>)
      requires Valid() && |f| == FIELD_COUNT && n < FIELD_COUNT && text == CsvPrinted(f, n)
      requires f[n] == OptionalU64(When(present, value))
      modifies this, data
      ensures Valid() && data == old(data) && capacity == old(capacity)
      ensures text == CsvPrinted(f, n + 1)
    {
      hide Valid;
      hide CsvPrinted;
      hide WithComma;
      if n > 0 { CsvSeparator(); }
      CsvOptionalU64(present, value);
      CsvPrintedNext(f, n);
    }

    method CsvOptionalU32Field(n: nat, present: bool, value: u32, ghost f: seq<Scalar>)
      requires Valid() && |f| == FIELD_COUNT && n < FIELD_COUNT && text == CsvPrinted(f, n)
      requires f[n] == OptionalU32(When(present, value))
      modifies this, data
      ensures Valid() && data == old(data) && capacity == old(capacity)
      ensures text == CsvPrinted(f, n + 1)
    {
      hide Valid;
      hide CsvPrinted;
      hide WithComma;
      if n > 0 { CsvSeparator(); }
      CsvOptionalU32(present, value);
      CsvPrintedNext(f, n);
    }

    method CsvOptionalI64Field(n: nat, present: bool, value: i64, ghost f: seq<Scalar>)
      requires Valid() && |f| == FIELD_COUNT && n < FIELD_COUNT && text == CsvPrinted(f, n)
      requires f[n] == OptionalI64(When(present, value))
      modifies this, data
      ensures Valid() && data == old(data) && capacity == old(capacity)
      ensures text == CsvPrinted(f, n + 1)
    {
      hide Valid;
      hide CsvPrinted;
      hide WithComma;
      if n > 0 { CsvSeparator(); }
      CsvOptionalI64(present, value);
      CsvPrintedNext(f, n);
    }

    method CsvOptionalDoubleField(n: nat, present: bool, value: Double, ghost f: seq<Scalar>)
      requires Valid() && |f| == FIELD_COUNT && n < FIELD_COUNT && text == CsvPrinted(f, n)
      requires f[n] == OptionalReal(When(present, value))
      requires present ==> value.Finite?
      modifies this, data
      ensures Valid() && data == old(data) && capacity == old(capacity)
      ensures text == CsvPrinted(f, n + 1)
    {
      hide Valid;
      hide CsvPrinted;
      hide WithComma;
      if n > 0 { CsvSeparator(); }
      CsvOptionalDouble(present, value);
      CsvPrintedNext(f, n);
    }

    method CsvOptionalBoolField(n: nat, present: bool, value: bool, ghost f: seq<Scalar>)
      requires Valid() && |f| == FIELD_COUNT && n < FIELD_COUNT && text == CsvPrinted(f, n)
      requires f[n] == OptionalBool(When(present, value))
      modifies this, data
      ensures Valid() && data == old(data) && capacity == old(capacity)
      ensures text == CsvPrinted(f, n + 1)
    {
      hide Valid;
      hide CsvPrinted;
      hide WithComma;
      if n > 0 { CsvSeparator(); }
      CsvOptionalBool(present, value);
      CsvPrintedNext(f, n);
    }

    // ---- the 28 members of a JSONL line ----

    method JsonIdentity(r: Record, ghost f: seq<Scalar>)
      requires Valid() && f == Fields(ViewOf(r)) && Printable(ViewOf(r)) && text == JsonPrinted(f, 0)
      modifies this, data
      ensures Valid() && data == old(data) && capacity == old(capacity)
      ensures text == JsonPrinted(f, 7)
    {
      hide Valid;
      hide Fields;
      hide JsonPrinted;
      IdentityAre(r);
      hide ViewOf;
      IdentityKeys();
      hide Json.FieldKey;
      hide Ascii;
      JsonStringField(0, Ascii("schema_version"), SchemaVersion(), f);
      JsonNameField(1, Ascii("record_kind"), KindName(r.recordKind), f);
      JsonUnsignedField(2, Ascii("indication_sequence"), r.indicationSequence, f);
      JsonUnsignedField(3, Ascii("receive_timestamp_us"), r.receiveTimestampUs, f);
      JsonOptionalU64Field(4, Ascii("kpm_header_timestamp_us"), r.hasKpmHeaderTimestampUs, r.kpmHeaderTimestampUs, f);
      JsonUnsignedField(5, Ascii("message_format"), r.messageFormat, f);
      JsonOptionalStringField(6, Ascii("node_type"), r.hasNodeType, Utf8.CString(r.nodeType), f);
    }

    method JsonPlace(r: Record, ghost f: seq<Scalar>)
      requires Valid() && f == Fields(ViewOf(r)) && Printable(ViewOf(r)) && text == JsonPrinted(f, 7)
      modifies this, data
      ensures Valid() && data == old(data) && capacity == old(capacity)
      ensures text == JsonPrinted(f, 14)
    {
      hide Valid;
      hide Fields;
      hide JsonPrinted;
      PlaceAre(r);
      hide ViewOf;
      PlaceKeys();
      hide Json.FieldKey;
      hide Ascii;
      JsonOptionalStringField(7, Ascii("node_id"), r.hasNodeId, Utf8.CString(r.nodeId), f);
      JsonOptionalU32Field(8, Ascii("ue_report_index"), r.hasUeReportIndex, r.ueReportIndex, f);
      JsonStringField(9, Ascii("ue_id_type"), Utf8.CString(r.ueIdType), f);
      JsonOptionalStringField(10, Ascii("ue_id_value"), r.hasUeIdValue, Utf8.CString(r.ueIdValue), f);
      JsonOptionalU32Field(11, Ascii("meas_data_index"), r.hasMeasDataIndex, r.measDataIndex, f);
      JsonOptionalU32Field(12, Ascii("meas_info_index"), r.hasMeasInfoIndex, r.measInfoIndex, f);
      JsonOptionalU32Field(13, Ascii("meas_record_index"), r.hasMeasRecordIndex, r.measRecordIndex, f);
    }

    method JsonShape(r: Record, ghost f: seq<Scalar>)
      requires Valid() && f == Fields(ViewOf(r)) && Printable(ViewOf(r)) && text == JsonPrinted(f, 14)
      modifies this, data
      ensures Valid() && data == old(data) && capacity == old(capacity)
      ensures text == JsonPrinted(f, 21)
    {
      hide Valid;
      hide Fields;
      hide JsonPrinted;
      ShapeAre(r);
      hide ViewOf;
      ShapeKeys();
      hide Json.FieldKey;
      hide Ascii;
      JsonUnsignedField(14, Ascii("meas_data_lst_len"), r.measDataLstLen, f);
      JsonUnsignedField(15, Ascii("meas_info_lst_len"), r.measInfoLstLen, f);
      JsonUnsignedField(16, Ascii("meas_record_len"), r.measRecordLen, f);
      JsonOptionalBoolField(17, Ascii("incomplete_flag_present"), true, r.incompleteFlagPresent, f);
      JsonOptionalBoolField(18, Ascii("incomplete_flag"), r.incompleteFlagPresent, r.incompleteFlag, f);
      JsonNameField(19, Ascii("structural_status"), StatusName(r.structuralStatus), f);
      JsonNameField(20, Ascii("descriptor_type"), DescriptorTypeName(r.descriptorType), f);
    }

    method JsonValue(r: Record, ghost f: seq<Scalar>)
      requires Valid() && f == Fields(ViewOf(r)) && Printable(ViewOf(r)) && text == JsonPrinted(f, 21)
      modifies this, data
      ensures Valid() && data == old(data) && capacity == old(capacity)
      ensures text == JsonPrinted(f, 28)
    {
      hide Valid;
      hide Fields;
      hide JsonPrinted;
      ValueAre(r);
      hide ViewOf;
      ValueKeys();
      hide Json.FieldKey;
      hide Ascii;
      JsonOptionalStringField(21, Ascii("measurement_name"), r.hasMeasurementName, Utf8.CString(r.measurementName), f);
      JsonOptionalU32Field(22, Ascii("measurement_id"), r.hasMeasurementId, r.measurementId, f);
      JsonNameField(23, Ascii("value_type"), ValueTypeName(r.valueType), f);
      JsonOptionalI64Field(24, Ascii("integer_value"), r.hasIntegerValue, r.integerValue, f);
      JsonOptionalDoubleField(25, Ascii("real_value"), r.hasRealValue, r.realValue, f);
      JsonOptionalStringField(26, Ascii("diagnostic_code"), r.hasDiagnosticCode, Utf8.CString(r.diagnosticCode), f);
      JsonOptionalStringField(
        27, Ascii("diagnostic_message"), r.hasDiagnosticMessage, Utf8.CString(r.diagnosticMessage), f);
    }

    // ---- the 28 cells of a CSV row ----

    method CsvIdentity(r: Record, ghost f: seq<Scalar>)
      requires Valid() && f == Fields(ViewOf(r)) && Printable(ViewOf(r)) && text == CsvPrinted(f, 0)
      modifies this, data
      ensures Valid() && data == old(data) && capacity == old(capacity)
      ensures text == CsvPrinted(f, 7)
    {
      hide Valid;
      hide Fields;
      hide CsvPrinted;
      IdentityAre(r);
      hide ViewOf;
      CsvStringField(0, SchemaVersion(), f);
      CsvNameField(1, KindName(r.recordKind), f);
      CsvUnsignedField(2, r.indicationSequence, f);
      CsvUnsignedField(3, r.receiveTimestampUs, f);
      CsvOptionalU64Field(4, r.hasKpmHeaderTimestampUs, r.kpmHeaderTimestampUs, f);
      CsvUnsignedField(5, r.messageFormat, f);
      CsvOptionalStringField(6, r.hasNodeType, Utf8.CString(r.nodeType), f);
    }

    method CsvPlace(r: Record, ghost f: seq<Scalar>)
      requires Valid() && f == Fields(ViewOf(r)) && Printable(ViewOf(r)) && text == CsvPrinted(f, 7)
      modifies this, data
      ensures Valid() && data == old(data) && capacity == old(capacity)
      ensures text == CsvPrinted(f, 14)
    {
      hide Valid;
      hide Fields;
      hide CsvPrinted;
      PlaceAre(r);
      hide ViewOf;
      CsvOptionalStringField(7, r.hasNodeId, Utf8.CString(r.nodeId), f);
      CsvOptionalU32Field(8, r.hasUeReportIndex, r.ueReportIndex, f);
      CsvStringField(9, Utf8.CString(r.ueIdType), f);
      CsvOptionalStringField(10, r.hasUeIdValue, Utf8.CString(r.ueIdValue), f);
      CsvOptionalU32Field(11, r.hasMeasDataIndex, r.measDataIndex, f);
      CsvOptionalU32Field(12, r.hasMeasInfoIndex, r.measInfoIndex, f);
      CsvOptionalU32Field(13, r.hasMeasRecordIndex, r.measRecordIndex, f);
    }

    method CsvShape(r: Record, ghost f: seq<Scalar>)
      requires Valid() && f == Fields(ViewOf(r)) && Printable(ViewOf(r)) && text == CsvPrinted(f, 14)
      modifies this, data
      ensures Valid() && data == old(data) && capacity == old(capacity)
      ensures text == CsvPrinted(f, 21)
    {
      hide Valid;
      hide Fields;
      hide CsvPrinted;
      ShapeAre(r);
      hide ViewOf;
      CsvUnsignedField(14, r.measDataLstLen, f);
      CsvUnsignedField(15, r.measInfoLstLen, f);
      CsvUnsignedField(16, r.measRecordLen, f);
      CsvOptionalBoolField(17, true, r.incompleteFlagPresent, f);
      CsvOptionalBoolField(18, r.incompleteFlagPresent, r.incompleteFlag, f);
      CsvNameField(19, StatusName(r.structuralStatus), f);
      CsvNameField(20, DescriptorTypeName(r.descriptorType), f);
    }

    method CsvValue(r: Record, ghost f: seq<Scalar>)
      requires Valid() && f == Fields(ViewOf(r)) && Printable(ViewOf(r)) && text == CsvPrinted(f, 21)
      modifies this, data
      ensures Valid() && data == old(data) && capacity == old(capacity)
      ensures text == CsvPrinted(f, 28)
    {
      hide Valid;
      hide Fields;
      hide CsvPrinted;
      ValueAre(r);
      hide ViewOf;
      CsvOptionalStringField(21, r.hasMeasurementName, Utf8.CString(r.measurementName), f);
      CsvOptionalU32Field(22, r.hasMeasurementId, r.measurementId, f);
      CsvNameField(23, ValueTypeName(r.valueType), f);
      CsvOptionalI64Field(24, r.hasIntegerValue, r.integerValue, f);
      CsvOptionalDoubleField(25, r.hasRealValue, r.realValue, f);
      CsvOptionalStringField(26, r.hasDiagnosticCode, Utf8.CString(r.diagnosticCode), f);
      CsvOptionalStringField(27, r.hasDiagnosticMessage, Utf8.CString(r.diagnosticMessage), f);
    }
  }

  // ---- the serialisers ----

  datatype Outcome = SerializeOk | InvalidArgument | InvalidRecord | BufferTooSmall

  /** What a caller sees when a text was printed into a destination of some capacity: the
      required length whatever the capacity, Ok exactly when text and terminator fit. */
  predicate PrintedInto(text: seq<byte>, capacity: nat, outcome: Outcome, required: Option<nat>) {
    && required == Some(|text|)
    && outcome == if |text| < capacity then SerializeOk else BufferTooSmall
  }

  /** builder_result */
  method BuilderResult(b: Builder) returns (outcome: Outcome, required: Option<nat>)
    requires b.Valid() && 0 < |b.text| < SIZE_MAX && (b.data == null ==> b.capacity == 0)
    ensures PrintedInto(b.text, b.capacity, outcome, required)
    ensures b.data != null ==> Holds(b.data[..], b.text)
  {
    required := Some(b.length);
    outcome := if b.overflow then BufferTooSmall else SerializeOk;
  }

  /** tcd_kpm_serialize_csv_header */
  method SerializeCsvHeader(destination: array?<byte>, capacity: nat)
    returns (outcome: Outcome, required: Option<nat>)
    requires capacity <= SIZE_MAX && (destination != null ==> destination.Length == capacity)
    modifies if destination == null then {} else {destination}
    ensures outcome == InvalidArgument <==> destination == null && capacity != 0
    ensures outcome != InvalidArgument ==> PrintedInto(Csv.Header(), capacity, outcome, required)
    ensures destination != null ==> Holds(destination[..], Csv.Header())
  {
    hide Csv.Header;
    if destination == null && capacity != 0 { return InvalidArgument, None; }
    HeaderIsShort();
    var b := new Builder(destination, capacity);
    b.AppendBytes(Csv.Header());
    assert b.text == Csv.Header();
    outcome, required := BuilderResult(b);
  }

  lemma HeaderIsShort()
    ensures 0 < |Csv.Header()| <= 701
  {
    Csv.HeaderLength(0);
  }

  /** tcd_kpm_serialize_csv_record: only a valid record is printed, and then as its whole row. */
  method SerializeCsvRecord(r: Record, destination: array?<byte>, capacity: nat)
    returns (outcome: Outcome, required: Option<nat>)
    requires capacity <= SIZE_MAX && (destination != null ==> destination.Length == capacity)
    modifies if destination == null then {} else {destination}
    ensures outcome == InvalidArgument <==> destination == null && capacity != 0
    ensures outcome == InvalidRecord <==> outcome != InvalidArgument && !CanonicalRecord.Valid(r)
    ensures outcome in {SerializeOk, BufferTooSmall} ==>
      PrintedInto(Csv.RecordRow(ViewOf(r)), capacity, outcome, required)
    ensures destination != null ==>
      if CanonicalRecord.Valid(r) then Holds(destination[..], Csv.RecordRow(ViewOf(r)))
      else destination[..] == old(destination[..])
  {
    hide CanonicalRecord.Valid;
    hide Fields;
    hide ViewOf;
    hide CsvPrinted;
    hide Csv.Row;
    hide Holds;
    var reason := Validate(r);
    if destination == null && capacity != 0 { return InvalidArgument, None; }
    if reason != None { return InvalidRecord, None; }
    ValidIsPrintable(r);
    ghost var f := Fields(ViewOf(r));
    CsvPrintedIsRow(f);
    CsvPrintedZero(f);
    RowLength(r);
    var b := new Builder(destination, capacity);
    b.CsvIdentity(r, f);
    b.CsvPlace(r, f);
    b.CsvShape(r, f);
    b.CsvValue(r, f);
    b.AppendBytes([10]);
    outcome, required := BuilderResult(b);
  }

  /** tcd_kpm_serialize_jsonl_record: only a valid record is printed, and then as its whole line. */
  method SerializeJsonlRecord(r: Record, destination: array?<byte>, capacity: nat)
    returns (outcome: Outcome, required: Option<nat>)
    requires capacity <= SIZE_MAX && (destination != null ==> destination.Length == capacity)
    modifies if destination == null then {} else {destination}
    ensures outcome == InvalidArgument <==> destination == null && capacity != 0
    ensures outcome == InvalidRecord <==> outcome != InvalidArgument && !CanonicalRecord.Valid(r)
    ensures outcome in {SerializeOk, BufferTooSmall} ==>
      PrintedInto(Json.RecordLine(ViewOf(r)), capacity, outcome, required)
    ensures destination != null ==>
      if CanonicalRecord.Valid(r) then Holds(destination[..], Json.RecordLine(ViewOf(r)))
      else destination[..] == old(destination[..])
  {
    hide CanonicalRecord.Valid;
    hide Fields;
    hide ViewOf;
    hide JsonPrinted;
    hide Json.Line;
    hide Holds;
    var reason := Validate(r);
    if destination == null && capacity != 0 { return InvalidArgument, None; }
    if reason != None { return InvalidRecord, None; }
    ValidIsPrintable(r);
    ghost var f := Fields(ViewOf(r));
    JsonPrintedIsLine(f);
    JsonPrintedZero(f);
    LineLength(r);
    var b := new Builder(destination, capacity);
    b.AppendBytes([123]);
    b.JsonIdentity(r, f);
    b.JsonPlace(r, f);
    b.JsonShape(r, f);
    b.JsonValue(r, f);
    b.AppendBytes([125, 10]);
    outcome, required := BuilderResult(b);
  }

  lemma RowLength(r: Record)
    requires CanonicalRecord.Valid(r)
    ensures 0 < |Csv.RecordRow(ViewOf(r))| < 8192
  {
    hide CanonicalRecord.Valid;
    Csv.RowFitsRecordBuffer(r);
    Csv.RowHasBytes(ViewOf(r));
  }

  lemma LineLength(r: Record)
    requires CanonicalRecord.Valid(r)
    ensures 0 < |Json.RecordLine(ViewOf(r))| < 8192
  {
    hide CanonicalRecord.Valid;
    hide Fields;
    hide Json.Members;
    Json.LineFitsRecordBuffer(r);
  }

  // ---- what has been printed after n fields ----

  /** A comma, except before the first member, then a quoted key and a colon. */
  ghost function WithKey(before: seq<byte>, key: seq<byte>, first: bool): seq<byte> {
    before + (if first then [] else [44]) + Json.Quoted(key) + [58]
  }

  ghost function WithComma(before: seq<byte>): seq<byte> { before + [44] }

  /** The opening brace and the first n members. */
  ghost function JsonPrinted(f: seq<Scalar>, n: nat): seq<byte>
    requires |f| == FIELD_COUNT && n <= FIELD_COUNT
  {
    if n == 0 then [123]
    else
      WithKey(JsonPrinted(f, n - 1), Json.FieldKey(n - 1), n == 1) + Json.ScalarText(f[n - 1])
  }

  /** The first n cells. */
  ghost function CsvPrinted(f: seq<Scalar>, n: nat): seq<byte>
    requires |f| == FIELD_COUNT && n <= FIELD_COUNT
  {
    if n == 0 then []
    else (if n == 1 then [] else WithComma(CsvPrinted(f, n - 1))) + Csv.CellText(f[n - 1])
  }

  lemma JsonPrintedNext(f: seq<Scalar>, n: nat)
    requires |f| == FIELD_COUNT && n < FIELD_COUNT
    ensures JsonPrinted(f, n + 1) ==
            WithKey(JsonPrinted(f, n), Json.FieldKey(n), n == 0) + Json.ScalarText(f[n])
  {
  }

  lemma CsvPrintedNext(f: seq<Scalar>, n: nat)
    requires |f| == FIELD_COUNT && n < FIELD_COUNT
    ensures CsvPrinted(f, n + 1) ==
            (if n == 0 then CsvPrinted(f, 0) else WithComma(CsvPrinted(f, n))) + Csv.CellText(f[n])
  {
  }

  lemma Regroup(a: seq<byte>, b: seq<byte>, c: seq<byte>)
    ensures a + b + [44] + c == a + (b + ([44] + c))
  {
  }

  /** The text before the n-th member: everything printed, and its comma. */
  ghost function JsonBefore(f: seq<Scalar>, n: nat): seq<byte>
    requires |f| == FIELD_COUNT && n <= FIELD_COUNT
  {
    if n == 0 then [123] else JsonPrinted(f, n) + [44]
  }

  lemma JsonPrintedMember(f: seq<Scalar>, n: nat)
    requires |f| == FIELD_COUNT && n < FIELD_COUNT
    ensures JsonPrinted(f, n + 1) == JsonBefore(f, n) + Json.Member(Json.FieldKey(n), f[n])
  {
    hide JsonPrinted;
    hide Json.Quoted;
    hide Json.ScalarText;
    hide Json.FieldKey;
    JsonPrintedNext(f, n);
    var key, value := Json.Quoted(Json.FieldKey(n)), Json.ScalarText(f[n]);
    assert JsonPrinted(f, 0) == [123] by { JsonPrintedZero(f); }
    assert JsonBefore(f, n) + (key + [58] + value) == JsonBefore(f, n) + key + [58] + value;
    assert n == 0 ==> JsonPrinted(f, n) + [] == JsonBefore(f, n);
  }

  lemma JsonPrintedZero(f: seq<Scalar>)
    requires |f| == FIELD_COUNT
    ensures JsonPrinted(f, 0) == [123]
  {
  }

  lemma {:induction false} JsonPrintedThenMembers(f: seq<Scalar>, n: nat)
    requires |f| == FIELD_COUNT && n < FIELD_COUNT
    ensures JsonBefore(f, n) + Json.Members(f, n) == [123] + Json.Members(f, 0)
  {
    hide JsonPrinted;
    hide Json.Member;
    hide Json.FieldKey;
    if n > 0 {
      JsonPrintedThenMembers(f, n - 1);
      JsonPrintedMember(f, n - 1);
      Regroup(JsonBefore(f, n - 1), Json.Member(Json.FieldKey(n - 1), f[n - 1]), Json.Members(f, n));
    }
  }

  /** Key by key, comma by comma, the 28 members make the line. */
  lemma JsonPrintedIsLine(f: seq<Scalar>)
    requires |f| == FIELD_COUNT
    ensures JsonPrinted(f, FIELD_COUNT) + [125, 10] == Json.Line(f)
  {
    hide JsonPrinted;
    hide JsonBefore;
    hide Json.Member;
    hide Json.FieldKey;
    var n := FIELD_COUNT - 1;
    JsonPrintedThenMembers(f, n);
    JsonPrintedMember(f, n);
    LastMember(f);
  }

  lemma LastMember(f: seq<Scalar>)
    requires |f| == FIELD_COUNT
    ensures Json.Members(f, FIELD_COUNT - 1) == Json.Member(Json.FieldKey(FIELD_COUNT - 1), f[FIELD_COUNT - 1])
  {
    hide Json.Member;
    hide Json.FieldKey;
  }

  /** The text before the n-th cell. */
  ghost function CsvBefore(f: seq<Scalar>, n: nat): seq<byte>
    requires |f| == FIELD_COUNT && n <= FIELD_COUNT
  {
    if n == 0 then [] else WithComma(CsvPrinted(f, n))
  }

  lemma {:induction false} CsvPrintedThenCells(f: seq<Scalar>, n: nat)
    requires |f| == FIELD_COUNT && n < FIELD_COUNT
    ensures CsvBefore(f, n) + Csv.Cells(f, n) == Csv.Cells(f, 0)
  {
    hide CsvPrinted;
    hide Csv.CellText;
    if n > 0 {
      CsvPrintedThenCells(f, n - 1);
      CsvPrintedCell(f, n - 1);
      Regroup(CsvBefore(f, n - 1), Csv.CellText(f[n - 1]), Csv.Cells(f, n));
    }
  }

  lemma CsvPrintedZero(f: seq<Scalar>)
    requires |f| == FIELD_COUNT
    ensures CsvPrinted(f, 0) == []
  {
  }

  lemma CsvPrintedCell(f: seq<Scalar>, n: nat)
    requires |f| == FIELD_COUNT && n < FIELD_COUNT
    ensures CsvPrinted(f, n + 1) == CsvBefore(f, n) + Csv.CellText(f[n])
  {
    hide Csv.CellText;
  }

  lemma CsvPrintedIsRow(f: seq<Scalar>)
    requires |f| == FIELD_COUNT
    ensures CsvPrinted(f, FIELD_COUNT) + [10] == Csv.Row(f)
  {
    hide CsvPrinted;
    hide CsvBefore;
    hide Csv.CellText;
    var n := FIELD_COUNT - 1;
    CsvPrintedThenCells(f, n);
    CsvPrintedCell(f, n);
    LastCell(f);
  }

  lemma LastCell(f: seq<Scalar>)
    requires |f| == FIELD_COUNT
    ensures Csv.Cells(f, FIELD_COUNT - 1) == Csv.CellText(f[FIELD_COUNT - 1])
  {
    hide Csv.CellText;
    assert Csv.CellText(f[FIELD_COUNT - 1]) + [] == Csv.CellText(f[FIELD_COUNT - 1]);
  }

  // Which printed field is which.

  lemma IdentityAre(r: Record)
    ensures Printable(ViewOf(r)) ==> KindName(r.recordKind).Some?
    ensures Fields(ViewOf(r))[0] == Text(SchemaVersion())
    ensures Fields(ViewOf(r))[1] == Name(KindName(r.recordKind))
    ensures Fields(ViewOf(r))[2] == Unsigned(r.indicationSequence)
    ensures Fields(ViewOf(r))[3] == Unsigned(r.receiveTimestampUs)
    ensures Fields(ViewOf(r))[4] == OptionalU64(When(r.hasKpmHeaderTimestampUs, r.kpmHeaderTimestampUs))
    ensures Fields(ViewOf(r))[5] == Unsigned(r.messageFormat)
    ensures Fields(ViewOf(r))[6] == OptionalText(When(r.hasNodeType, Utf8.CString(r.nodeType)))
  {
    hide PlaceFields;
    hide ShapeFields;
    hide ValueFields;
  }

  lemma PlaceAre(r: Record)
    ensures Fields(ViewOf(r))[7] == OptionalText(When(r.hasNodeId, Utf8.CString(r.nodeId)))
    ensures Fields(ViewOf(r))[8] == OptionalU32(When(r.hasUeReportIndex, r.ueReportIndex))
    ensures Fields(ViewOf(r))[9] == Text(Utf8.CString(r.ueIdType))
    ensures Fields(ViewOf(r))[10] == OptionalText(When(r.hasUeIdValue, Utf8.CString(r.ueIdValue)))
    ensures Fields(ViewOf(r))[11] == OptionalU32(When(r.hasMeasDataIndex, r.measDataIndex))
    ensures Fields(ViewOf(r))[12] == OptionalU32(When(r.hasMeasInfoIndex, r.measInfoIndex))
    ensures Fields(ViewOf(r))[13] == OptionalU32(When(r.hasMeasRecordIndex, r.measRecordIndex))
  {
    hide IdentityFields;
    hide ShapeFields;
    hide ValueFields;
  }

  lemma ShapeAre(r: Record)
    ensures Printable(ViewOf(r)) ==> StatusName(r.structuralStatus).Some? && DescriptorTypeName(r.descriptorType).Some?
    ensures Fields(ViewOf(r))[14] == Unsigned(r.measDataLstLen)
    ensures Fields(ViewOf(r))[15] == Unsigned(r.measInfoLstLen)
    ensures Fields(ViewOf(r))[16] == Unsigned(r.measRecordLen)
    ensures Fields(ViewOf(r))[17] == OptionalBool(When(true, r.incompleteFlagPresent))
    ensures Fields(ViewOf(r))[18] == OptionalBool(When(r.incompleteFlagPresent, r.incompleteFlag))
    ensures Fields(ViewOf(r))[19] == Name(StatusName(r.structuralStatus))
    ensures Fields(ViewOf(r))[20] == Name(DescriptorTypeName(r.descriptorType))
  {
    hide IdentityFields;
    hide PlaceFields;
    hide ValueFields;
  }

  lemma ValueAre(r: Record)
    ensures Printable(ViewOf(r)) ==> (r.hasRealValue ==> r.realValue.Finite?)
    ensures Printable(ViewOf(r)) ==> ValueTypeName(r.valueType).Some?
    ensures Fields(ViewOf(r))[21] == OptionalText(When(r.hasMeasurementName, Utf8.CString(r.measurementName)))
    ensures Fields(ViewOf(r))[22] == OptionalU32(When(r.hasMeasurementId, r.measurementId))
    ensures Fields(ViewOf(r))[23] == Name(ValueTypeName(r.valueType))
    ensures Fields(ViewOf(r))[24] == OptionalI64(When(r.hasIntegerValue, r.integerValue))
    ensures Fields(ViewOf(r))[25] == OptionalReal(When(r.hasRealValue, r.realValue))
    ensures Fields(ViewOf(r))[26] == OptionalText(When(r.hasDiagnosticCode, Utf8.CString(r.diagnosticCode)))
    ensures Fields(ViewOf(r))[27] == OptionalText(When(r.hasDiagnosticMessage, Utf8.CString(r.diagnosticMessage)))
  {
    hide IdentityFields;
    hide PlaceFields;
    hide ShapeFields;
  }

  lemma IdentityKeys()
    ensures Json.FieldKey(0) == Ascii("schema_version")
    ensures Json.FieldKey(1) == Ascii("record_kind")
    ensures Json.FieldKey(2) == Ascii("indication_sequence")
    ensures Json.FieldKey(3) == Ascii("receive_timestamp_us")
    ensures Json.FieldKey(4) == Ascii("kpm_header_timestamp_us")
    ensures Json.FieldKey(5) == Ascii("message_format")
    ensures Json.FieldKey(6) == Ascii("node_type")
  {
    hide Ascii;
  }

  lemma PlaceKeys()
    ensures Json.FieldKey(7) == Ascii("node_id")
    ensures Json.FieldKey(8) == Ascii("ue_report_index")
    ensures Json.FieldKey(9) == Ascii("ue_id_type")
    ensures Json.FieldKey(10) == Ascii("ue_id_value")
    ensures Json.FieldKey(11) == Ascii("meas_data_index")
    ensures Json.FieldKey(12) == Ascii("meas_info_index")
    ensures Json.FieldKey(13) == Ascii("meas_record_index")
  {
    hide Ascii;
  }

  lemma ShapeKeys()
    ensures Json.FieldKey(14) == Ascii("meas_data_lst_len")
    ensures Json.FieldKey(15) == Ascii("meas_info_lst_len")
    ensures Json.FieldKey(16) == Ascii("meas_record_len")
    ensures Json.FieldKey(17) == Ascii("incomplete_flag_present")
    ensures Json.FieldKey(18) == Ascii("incomplete_flag")
    ensures Json.FieldKey(19) == Ascii("structural_status")
    ensures Json.FieldKey(20) == Ascii("descriptor_type")
  {
    hide Ascii;
  }

  lemma ValueKeys()
    ensures Json.FieldKey(21) == Ascii("measurement_name")
    ensures Json.FieldKey(22) == Ascii("measurement_id")
    ensures Json.FieldKey(23) == Ascii("value_type")
    ensures Json.FieldKey(24) == Ascii("integer_value")
    ensures Json.FieldKey(25) == Ascii("real_value")
    ensures Json.FieldKey(26) == Ascii("diagnostic_code")
    ensures Json.FieldKey(27) == Ascii("diagnostic_message")
  {
    hide Ascii;
  }
}
