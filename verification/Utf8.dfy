/** UTF-8 (RFC 3629, section 4) and the recogniser bounded_string_valid. */
module Utf8 {
  import opened Bytes

  /** Unicode scalar values: no surrogates, nothing above U+10FFFF. */
  predicate IsScalar(c: int) {
    0 <= c <= 0x10FFFF && !(0xD800 <= c <= 0xDFFF)
  }

  type Scalar = c: int | 0 <= c <= 0x10FFFF && !(0xD800 <= c <= 0xDFFF)

  /** The one encoding of a scalar value (RFC 3629, section 3). */
  function Encode(c: Scalar): (r: seq<byte>)
    ensures 1 <= |r| <= 4
  {
    var low: byte := 0x80 + c % 64;
    if c < 0x80 then [c as byte]
    else if c < 0x800 then
      var lead: byte := 0xC0 + c / 64;
      [lead, low]
    else if c < 0x10000 then
      var lead: byte, middle: byte := 0xE0 + c / 64 / 64, 0x80 + c / 64 % 64;
      [lead, middle, low]
    else
      var lead: byte, high: byte, middle: byte :=
        0xF0 + c / 64 / 64 / 64, 0x80 + c / 64 / 64 % 64, 0x80 + c / 64 % 64;
      [lead, high, middle, low]
  }

  function EncodeAll(cs: seq<Scalar>): seq<byte> {
    if cs == [] then [] else Encode(cs[0]) + EncodeAll(cs[1..])
  }

  /** A byte string is well formed when it encodes some sequence of scalar values. */
  ghost predicate WellFormed(s: seq<byte>) {
    exists cs: seq<Scalar> :: EncodeAll(cs) == s
  }

  /** A buffer of fixed capacity holds a C string when a NUL occurs in it. */
  predicate Terminated(buffer: seq<byte>) { 0 in buffer }

  /** The bytes before the first NUL. */
  function CString(buffer: seq<byte>): (r: seq<byte>)
    ensures |r| <= |buffer| && r == buffer[..|r|] && 0 !in r
    ensures |r| < |buffer| ==> buffer[|r|] == 0
    ensures |r| == |buffer| <==> !Terminated(buffer)
  {
    if buffer == [] || buffer[0] == 0 then []
    else
      assert buffer == [buffer[0]] + buffer[1..];
      [buffer[0]] + CString(buffer[1..])
  }

  // ---- the first character of a byte string ----

  predicate Continuation(b: byte) { 0x80 <= b < 0xC0 }

  /** How many continuation bytes a lead byte announces. */
  function ContinuationCount(lead: byte): Option<nat> {
    if lead <= 0x7F then Some(0)
    else if 0xC2 <= lead <= 0xDF then Some(1)
    else if 0xE0 <= lead <= 0xEF then Some(2)
    else if 0xF0 <= lead <= 0xF4 then Some(3)
    else None
  }

  /** The payload bits of a lead byte. */
  function LeadBits(lead: byte): nat {
    if lead <= 0x7F then lead
    else if lead <= 0xDF then lead % 32
    else if lead <= 0xEF then lead % 16
    else lead % 8
  }

  /** The code point assembled from a lead byte and its first k continuation bytes. */
  function Assemble(s: seq<byte>, k: nat): nat
    requires k < |s|
  {
    if k == 0 then LeadBits(s[0]) else Assemble(s, k - 1) * 64 + s[k] % 64
  }

  predicate AcceptedCodepoint(count: nat, c: nat) {
    && !(count == 1 && c < 0x80)
    && !(count == 2 && c < 0x800)
    && !(count == 3 && c < 0x10000)
    && c <= 0x10FFFF
    && !(0xD800 <= c <= 0xDFFF)
  }

  /** The scalar value a byte string starts with, decided the way the recogniser decides it. */
  function First(s: seq<byte>): Option<nat> {
    if s == [] then None
    else
      match ContinuationCount(s[0])
      case None => None
      case Some(n) =>
        if n >= |s| || exists i :: 1 <= i <= n && !Continuation(s[i]) then None
        else if AcceptedCodepoint(n, Assemble(s, n)) then Some(Assemble(s, n))
        else None
  }

  lemma AssembleStart(s: seq<byte>)
    requires s != []
    ensures Assemble(s, 0) == LeadBits(s[0])
  {
  }

  lemma AssembleStep(s: seq<byte>, k: nat)
    requires k + 1 < |s|
    ensures Assemble(s, k + 1) == Assemble(s, k) * 64 + s[k + 1] % 64
  {
  }

  /** Splitting off six bits undoes appending them. */
  lemma SixBits(h: nat, b: byte)
    requires Continuation(b)
    ensures (h * 64 + b % 64) / 64 == h && 0x80 + (h * 64 + b % 64) % 64 == b
  {
  }

  lemma FirstIsPrefix(s: seq<byte>)
    requires First(s).Some?
    ensures IsScalar(First(s).value) && Encode(First(s).value) <= s
    ensures |Encode(First(s).value)| == ContinuationCount(s[0]).value + 1
  {
    var n := ContinuationCount(s[0]).value;
    assert forall i :: 1 <= i <= n ==> Continuation(s[i]);
    var c := First(s).value;
    assert n == 0 ==> c == s[0];
    if n == 1 {
      TwoBytes(s, c);
    } else if n == 2 {
      ThreeBytes(s, c);
    } else if n == 3 {
      FourBytes(s, c);
    } else {
      assert Encode(c) == s[..1];
    }
  }

  lemma TwoBytes(s: seq<byte>, c: nat)
    requires |s| > 1 && 0xC2 <= s[0] <= 0xDF && Continuation(s[1])
    requires c == Assemble(s, 1) && AcceptedCodepoint(1, c)
    ensures IsScalar(c) && Encode(c) == s[..2]
  {
    SixBits(s[0] - 0xC0, s[1]);
    assert Assemble(s, 0) == s[0] - 0xC0;
  }

  lemma ThreeBytes(s: seq<byte>, c: nat)
    requires |s| > 2 && 0xE0 <= s[0] <= 0xEF && Continuation(s[1]) && Continuation(s[2])
    requires c == Assemble(s, 2) && AcceptedCodepoint(2, c)
    ensures IsScalar(c) && Encode(c) == s[..3]
  {
    var one: nat := s[0] - 0xE0;
    assert Assemble(s, 0) == one;
    SixBits(one, s[1]);
    var two: nat := one * 64 + s[1] % 64;
    assert Assemble(s, 1) == two;
    SixBits(two, s[2]);
    assert c / 64 == two && two / 64 == one;
  }

  lemma FourBytes(s: seq<byte>, c: nat)
    requires |s| > 3 && 0xF0 <= s[0] <= 0xF4
    requires Continuation(s[1]) && Continuation(s[2]) && Continuation(s[3])
    requires c == Assemble(s, 3) && AcceptedCodepoint(3, c)
    ensures IsScalar(c) && Encode(c) == s[..4]
  {
    var one: nat := s[0] - 0xF0;
    assert Assemble(s, 0) == one;
    SixBits(one, s[1]);
    var two: nat := one * 64 + s[1] % 64;
    assert Assemble(s, 1) == two;
    SixBits(two, s[2]);
    var three: nat := two * 64 + s[2] % 64;
    assert Assemble(s, 2) == three;
    SixBits(three, s[3]);
    assert c / 64 == three && three / 64 == two && two / 64 == one;
  }

  /** The encoding of a scalar value assembles back to it. */
  ghost predicate Reassembles(c: Scalar, e: seq<byte>) {
    && e != []
    && ContinuationCount(e[0]) == Some(|e| - 1)
    && (forall i :: 1 <= i < |e| ==> Continuation(e[i]))
    && Assemble(e, |e| - 1) == c
  }

  lemma EncodeAssembles(c: Scalar)
    ensures Reassembles(c, Encode(c))
  {
    if c < 0x80 {
    } else if c < 0x800 {
      TwoByteEncoding(c);
    } else if c < 0x10000 {
      ThreeByteEncoding(c);
    } else {
      FourByteEncoding(c);
    }
  }

  lemma TwoByteEncoding(c: Scalar)
    requires 0x80 <= c < 0x800
    ensures Reassembles(c, Encode(c))
  {
    var e := Encode(c);
    assert LeadBits(e[0]) == c / 64;
    assert Assemble(e, 1) == c / 64 * 64 + c % 64;
  }

  lemma ThreeByteEncoding(c: Scalar)
    requires 0x800 <= c < 0x10000
    ensures Reassembles(c, Encode(c))
  {
    var e := Encode(c);
    assert LeadBits(e[0]) == c / 64 / 64;
    AssembleStep(e, 0);
    AssembleStep(e, 1);
    assert Assemble(e, 1) == c / 64;
    assert Assemble(e, 2) == c / 64 * 64 + c % 64;
  }

  lemma FourByteEncoding(c: Scalar)
    requires 0x10000 <= c
    ensures Reassembles(c, Encode(c))
  {
    var e := Encode(c);
    assert LeadBits(e[0]) == c / 64 / 64 / 64;
    AssembleStep(e, 0);
    AssembleStep(e, 1);
    AssembleStep(e, 2);
    assert Assemble(e, 1) == c / 64 / 64;
    assert Assemble(e, 2) == c / 64;
    assert Assemble(e, 3) == c / 64 * 64 + c % 64;
  }

  lemma {:induction false} AssemblePrefix(e: seq<byte>, s: seq<byte>, k: nat)
    requires e <= s && k < |e|
    ensures Assemble(e, k) == Assemble(s, k)
  {
    if k > 0 { AssemblePrefix(e, s, k - 1); }
  }

  lemma PrefixIsFirst(c: Scalar, s: seq<byte>)
    requires Encode(c) <= s
    ensures First(s) == Some(c)
  {
    var e := Encode(c);
    EncodeAssembles(c);
    AssemblePrefix(e, s, |e| - 1);
    assert forall i :: 0 <= i < |e| ==> s[i] == e[i];
  }

  /** A non-empty string is well formed exactly when its first character is, and the rest is. */
  lemma WellFormedStep(s: seq<byte>)
    requires s != []
    ensures WellFormed(s) <==> First(s).Some? && WellFormed(s[ContinuationCount(s[0]).value + 1..])
  {
    if WellFormed(s) {
      var cs: seq<Scalar> :| EncodeAll(cs) == s;
      assert cs != [];
      PrefixIsFirst(cs[0], s);
      FirstIsPrefix(s);
      var n := ContinuationCount(s[0]).value + 1;
      assert s[n..] == EncodeAll(cs[1..]);
    }
    if First(s).Some? && WellFormed(s[ContinuationCount(s[0]).value + 1..]) {
      FirstIsPrefix(s);
      var n := ContinuationCount(s[0]).value + 1;
      var cs: seq<Scalar> :| EncodeAll(cs) == s[n..];
      var all: seq<Scalar> := [First(s).value] + cs;
      assert all[1..] == cs;
      assert EncodeAll(all) == s[..n] + s[n..] == s;
    }
  }

  /** The decoding is unique: different scalar sequences have different encodings. */
  lemma {:induction false} EncodeAllInjective(cs: seq<Scalar>, ds: seq<Scalar>)
    requires EncodeAll(cs) == EncodeAll(ds)
    ensures cs == ds
  {
    if cs != [] && ds != [] {
      var s := EncodeAll(cs);
      PrefixIsFirst(cs[0], s);
      PrefixIsFirst(ds[0], s);
      var n := |Encode(cs[0])|;
      assert s[n..] == EncodeAll(cs[1..]) && s[n..] == EncodeAll(ds[1..]);
      EncodeAllInjective(cs[1..], ds[1..]);
      assert cs == [cs[0]] + cs[1..] && ds == [ds[0]] + ds[1..];
    }
  }

  lemma {:induction false} EncodeAllConcat(cs: seq<Scalar>, ds: seq<Scalar>)
    ensures EncodeAll(cs + ds) == EncodeAll(cs) + EncodeAll(ds)
  {
    hide Encode;
    if cs == [] {
      assert cs + ds == ds;
    } else {
      EncodeAllConcat(cs[1..], ds);
      assert (cs + ds)[1..] == cs[1..] + ds;
    }
  }

  lemma WellFormedConcat(s: seq<byte>, t: seq<byte>)
    requires WellFormed(s) && WellFormed(t)
    ensures WellFormed(s + t)
  {
    var cs: seq<Scalar> :| EncodeAll(cs) == s;
    var ds: seq<Scalar> :| EncodeAll(ds) == t;
    EncodeAllConcat(cs, ds);
  }

  lemma {:induction false} AsciiWellFormed(s: seq<byte>)
    requires forall i :: 0 <= i < |s| ==> s[i] < 0x80
    ensures WellFormed(s)
  {
    if s == [] {
      assert EncodeAll([]) == s;
    } else {
      AsciiWellFormed(s[1..]);
      var cs: seq<Scalar> :| EncodeAll(cs) == s[1..];
      var all: seq<Scalar> := [s[0]] + cs;
      assert all[1..] == cs;
      assert EncodeAll(all) == s;
    }
  }

  lemma {:induction false} CStringIsScanned(buffer: seq<byte>, length: nat)
    requires length < |buffer| && buffer[length] == 0 && 0 !in buffer[..length]
    ensures CString(buffer) == buffer[..length]
  {
    if length > 0 {
      assert buffer[0] in buffer[..length];
      assert buffer[1..][..length - 1] == buffer[..length][1..];
      CStringIsScanned(buffer[1..], length - 1);
      assert buffer[..length] == [buffer[0]] + buffer[1..][..length - 1];
    }
  }

  lemma RejectedLead(s: seq<byte>)
    requires s != [] && ContinuationCount(s[0]) == None
    ensures First(s) == None
  {
  }

  lemma RejectedContinuation(s: seq<byte>, i: nat)
    requires s != [] && ContinuationCount(s[0]).Some? && 1 <= i <= ContinuationCount(s[0]).value
    requires i < |s| ==> !Continuation(s[i])
    ensures First(s) == None
  {
  }

  lemma AssembledCodepoint(s: seq<byte>, n: nat)
    requires s != [] && ContinuationCount(s[0]) == Some(n) && n < |s|
    requires forall i :: 1 <= i <= n ==> Continuation(s[i])
    ensures First(s).Some? <==> AcceptedCodepoint(n, Assemble(s, n))
  {
  }

  /** The character scan of bounded_string_valid: how far it advances, 0 for a rejection. */
  method ScanCharacter(text: seq<byte>) returns (advance: nat)
    requires text != []
    ensures advance > 0 <==> First(text).Some?
    ensures advance > 0 ==> advance == ContinuationCount(text[0]).value + 1 <= |text|
  {
    hide First;
    hide Assemble;
    AssembleStart(text);
    var lead := text[0];
    var codepoint: nat := 0;
    var count: nat := 0;
    if lead <= 0x7F {
      AssembledCodepoint(text, 0);
      return 1;
    }
    if 0xC2 <= lead <= 0xDF {
      codepoint := lead % 32;
      count := 1;
    } else if 0xE0 <= lead <= 0xEF {
      codepoint := lead % 16;
      count := 2;
    } else if 0xF0 <= lead <= 0xF4 {
      codepoint := lead % 8;
      count := 3;
    } else {
      RejectedLead(text);
      return 0;
    }
    if count > |text| - 1 {
      RejectedContinuation(text, count);
      return 0;
    }
    var offset := 1;
    while offset <= count
      invariant 1 <= offset <= count + 1
      invariant forall i :: 1 <= i < offset ==> Continuation(text[i])
      invariant codepoint == Assemble(text, offset - 1)
    {
      var next := text[offset];
      if !(0x80 <= next < 0xC0) {
        RejectedContinuation(text, offset);
        return 0;
      }
      AssembleStep(text, offset - 1);
      codepoint := codepoint * 64 + next % 64;
      offset := offset + 1;
    }
    AssembledCodepoint(text, count);
    if || (count == 1 && codepoint < 0x80)
       || (count == 2 && codepoint < 0x800)
       || (count == 3 && codepoint < 0x10000)
       || codepoint > 0x10FFFF
       || (0xD800 <= codepoint <= 0xDFFF)
    {
      return 0;
    }
    return count + 1;
  }

  /** bounded_string_valid: a NUL occurs within capacity and what precedes it is UTF-8. */
  method BoundedStringValid(bytes: seq<byte>) returns (ok: bool)
    ensures ok <==> Terminated(bytes) && WellFormed(CString(bytes))
  {
    hide First;
    hide EncodeAll;
    hide ContinuationCount;
    hide CString;
    var length := 0;
    while length < |bytes| && bytes[length] != 0
      invariant 0 <= length <= |bytes|
      invariant 0 !in bytes[..length]
    {
      length := length + 1;
    }
    if length == |bytes| {
      assert bytes[..length] == bytes;
      return false;
    }
    CStringIsScanned(bytes, length);
    ghost var text := CString(bytes);

    var index := 0;
    while index < length
      invariant 0 <= index <= length
      invariant WellFormed(text) <==> WellFormed(text[index..])
    {
      var rest := bytes[index..length];
      assert rest == text[index..];
      WellFormedStep(rest);
      var advance := ScanCharacter(rest);
      if advance == 0 {
        return false;
      }
      assert rest[advance..] == text[index + advance..];
      index := index + advance;
    }
    assert text[index..] == [];
    AsciiWellFormed([]);
    return true;
  }
}
