/** Integers in network byte order: the parser that consumes a buffer and its inverse. */
module Parsing {
  import opened Words

  datatype ParseResult =
    | NoError
    | BadChecksum
    | PacketTooShort
    | WrongIPVersion
    | HeaderTooShort
    | TruncatedPacket
    | Unsupported

  datatype Parser = Parser(buffer: seq<byte>, error: ParseResult)

  function Pow256(n: nat): nat {
    if n == 0 then 1 else 0x100 * Pow256(n - 1)
  }

  function BigEndian(bytes: seq<byte>): nat {
    if bytes == [] then 0 else BigEndian(bytes[..|bytes| - 1]) * 0x100 + bytes[|bytes| - 1]
  }

  /** The low `len` bytes of a number, most significant first. */
  function ToBytes(val: nat, len: nat): (r: seq<byte>)
    ensures |r| == len
  {
    if len == 0 then [] else ToBytes(val / 0x100, len - 1) + [val % 0x100]
  }

  /** A short buffer sets the error; an earlier error stays. */
  function SizeChecked(p: Parser, size: nat): Parser {
    if size > |p.buffer| then p.(error := PacketTooShort) else p
  }

  function ParsedInt(p: Parser, len: nat): nat {
    if SizeChecked(p, len).error != NoError then 0 else BigEndian(p.buffer[..len])
  }

  function AfterParse(p: Parser, len: nat): Parser {
    var q := SizeChecked(p, len);
    if q.error != NoError then q else q.(buffer := q.buffer[len..])
  }

  lemma {:induction false} BigEndianBound(bytes: seq<byte>)
    ensures BigEndian(bytes) < Pow256(|bytes|)
  {
    if bytes != [] {
      BigEndianBound(bytes[..|bytes| - 1]);
    }
  }

  /** Writing a number and reading it back. */
  lemma {:induction false} IntRoundTrip(val: nat, len: nat)
    requires val < Pow256(len)
    ensures BigEndian(ToBytes(val, len)) == val
  {
    if len > 0 {
      var r := ToBytes(val, len);
      IntRoundTrip(val / 0x100, len - 1);
      assert r[..|r| - 1] == ToBytes(val / 0x100, len - 1);
    }
  }

  /** Reading bytes and writing them back. */
  lemma {:induction false} BytesRoundTrip(bytes: seq<byte>)
    ensures ToBytes(BigEndian(bytes), |bytes|) == bytes
  {
    if bytes != [] {
      BytesRoundTrip(bytes[..|bytes| - 1]);
    }
  }

  lemma Widths()
    ensures Pow256(1) == 0x100 && Pow256(2) == TWO16 && Pow256(4) == TWO32
  {
    assert Pow256(3) == 0x100_0000;
  }

  lemma ShortBytes(v: u16)
    ensures ToBytes(v, 2) == [v / 0x100, v % 0x100]
  {
    assert ToBytes(v / 0x100, 1) == ToBytes(v / 0x100 / 0x100, 0) + [v / 0x100 % 0x100];
  }

  lemma DivIs(v: nat, n: nat, b: byte)
    requires v == 0x100 * n + b
    ensures v / 0x100 == n && v % 0x100 == b
  {
  }

  /** The third and fourth byte from the top are the same whether or not the upper half is there. */
  lemma LowHalf(v: u32)
    ensures v / 0x100 / 0x100 == v / TWO16
    ensures v / 0x100 % 0x100 == v % TWO16 / 0x100 && v % 0x100 == v % TWO16 % 0x100
  {
    var high, low := v / TWO16, v % TWO16;
    var a, b := low / 0x100, low % 0x100;
    assert v == 0x100 * (0x100 * high + a) + b;
    DivIs(v, 0x100 * high + a, b);
    DivIs(0x100 * high + a, high, a);
  }

  lemma LongBytes(v: u32)
    ensures ToBytes(v, 4) == ToBytes(v / TWO16, 2) + ToBytes(v % TWO16, 2)
  {
    LowHalf(v);
    ShortBytes(v % TWO16);
    assert ToBytes(v, 4) == ToBytes(v / 0x100, 3) + [v % 0x100];
    assert ToBytes(v / 0x100, 3) == ToBytes(v / TWO16, 2) + [v / 0x100 % 0x100];
  }

  // ---------------------------------------------------------------- records of fields

  /** A number and the bytes it takes on the wire. */
  datatype Field = Field(val: nat, len: nat)

  function Packed(fs: seq<Field>): seq<byte> {
    if fs == [] then [] else ToBytes(fs[0].val, fs[0].len) + Packed(fs[1..])
  }

  function Lengths(fs: seq<Field>): seq<nat> {
    seq(|fs|, i requires 0 <= i < |fs| => fs[i].len)
  }

  function Values(fs: seq<Field>): seq<nat> {
    seq(|fs|, i requires 0 <= i < |fs| => fs[i].val)
  }

  /** The values read one after the other with the given widths. */
  function ReadAll(p: Parser, lens: seq<nat>): (vs: seq<nat>)
    ensures |vs| == |lens|
    decreases |lens|
  {
    if lens == [] then [] else [ParsedInt(p, lens[0])] + ReadAll(AfterParse(p, lens[0]), lens[1..])
  }

  function AfterAll(p: Parser, lens: seq<nat>): Parser
    decreases |lens|
  {
    if lens == [] then p else AfterAll(AfterParse(p, lens[0]), lens[1..])
  }

  /** A field at the front of a buffer is read and consumed. */
  lemma FieldRoundTrip(val: nat, len: nat, rest: seq<byte>)
    requires val < Pow256(len)
    ensures var p := Parser(ToBytes(val, len) + rest, NoError);
            ParsedInt(p, len) == val && AfterParse(p, len) == Parser(rest, NoError)
  {
    var p := Parser(ToBytes(val, len) + rest, NoError);
    IntRoundTrip(val, len);
    assert p.buffer[..len] == ToBytes(val, len);
    assert p.buffer[len..] == rest;
  }

  lemma SkipPrefix(prefix: seq<byte>, rest: seq<byte>)
    ensures AfterParse(Parser(prefix + rest, NoError), |prefix|) == Parser(rest, NoError)
  {
    assert (prefix + rest)[|prefix|..] == rest;
  }

  lemma ConsFields(fs: seq<Field>)
    requires fs != []
    ensures Lengths(fs)[0] == fs[0].len && Lengths(fs)[1..] == Lengths(fs[1..])
    ensures Values(fs) == [fs[0].val] + Values(fs[1..])
  {
  }

  /** Any record whose fields fit their widths is read back as written, and exactly consumed. */
  lemma {:induction false} RecordRoundTrip(fs: seq<Field>, rest: seq<byte>)
    requires forall k :: 0 <= k < |fs| ==> fs[k].val < Pow256(fs[k].len)
    ensures ReadAll(Parser(Packed(fs) + rest, NoError), Lengths(fs)) == Values(fs)
    ensures AfterAll(Parser(Packed(fs) + rest, NoError), Lengths(fs)) == Parser(rest, NoError)
  {
    if fs == [] {
      assert Packed(fs) + rest == rest;
    } else {
      var tail := Packed(fs[1..]) + rest;
      assert Packed(fs) + rest == ToBytes(fs[0].val, fs[0].len) + tail;
      FieldRoundTrip(fs[0].val, fs[0].len, tail);
      RecordRoundTrip(fs[1..], rest);
      ConsFields(fs);
    }
  }

  lemma ParsedBound(p: Parser, len: nat)
    ensures ParsedInt(p, len) < Pow256(len)
  {
    PowPositive(len);
    if SizeChecked(p, len).error == NoError {
      BigEndianBound(p.buffer[..len]);
    }
  }

  lemma {:induction false} ReadBound(p: Parser, lens: seq<nat>)
    ensures forall k :: 0 <= k < |lens| ==> ReadAll(p, lens)[k] < Pow256(lens[k])
    decreases |lens|
  {
    if lens != [] {
      ParsedBound(p, lens[0]);
      ReadBound(AfterParse(p, lens[0]), lens[1..]);
    }
  }

  lemma {:induction false} PackedConcat(a: seq<Field>, b: seq<Field>)
    ensures Packed(a + b) == Packed(a) + Packed(b)
  {
    if a == [] {
      assert a + b == b;
    } else {
      assert (a + b)[1..] == a[1..] + b;
      PackedConcat(a[1..], b);
    }
  }

  function TotalWidth(lens: seq<nat>): nat {
    if lens == [] then 0 else lens[0] + TotalWidth(lens[1..])
  }

  lemma {:induction false} PackedLength(fs: seq<Field>)
    ensures |Packed(fs)| == TotalWidth(Lengths(fs)) && |Lengths(fs)| == |Values(fs)| == |fs|
  {
    if fs != [] {
      PackedLength(fs[1..]);
      assert Lengths(fs)[1..] == Lengths(fs[1..]);
    }
  }

  class NetParser {
    var buffer: seq<byte>
    var error: ParseResult

    function State(): Parser
      reads this
    {
      Parser(buffer, error)
    }

    constructor (buffer: seq<byte>)
      ensures State() == Parser(buffer, NoError)
    {
      this.buffer := buffer;
      this.error := NoError;
    }

    method CheckSize(size: nat)
      modifies this`error
      ensures State() == SizeChecked(old(State()), size)
    {
      if size > |buffer| {
        error := PacketTooShort;
      }
    }

    method ParseInt(len: nat) returns (ret: nat)
      modifies this
      ensures ret == ParsedInt(old(State()), len)
      ensures State() == AfterParse(old(State()), len)
      ensures ret < Pow256(len)
    {
      CheckSize(len);
      if error != NoError {
        PowPositive(len);
        return 0;
      }
      ret := 0;
      for i := 0 to len
        invariant ret == BigEndian(buffer[..i])
      {
        assert buffer[..i + 1][..i] == buffer[..i];
        ret := ret * 0x100 + buffer[i];
      }
      BigEndianBound(buffer[..len]);
      buffer := buffer[len..];
    }

    /** Consecutive reads with the given widths. */
    method ReadFields(lens: seq<nat>) returns (vs: seq<nat>)
      modifies this
      ensures vs == ReadAll(old(State()), lens)
      ensures State() == AfterAll(old(State()), lens)
    {
      vs := [];
      for i := 0 to |lens|
        invariant vs + ReadAll(State(), lens[i..]) == ReadAll(old(State()), lens)
        invariant AfterAll(State(), lens[i..]) == AfterAll(old(State()), lens)
      {
        assert lens[i..][1..] == lens[i + 1..];
        var v := ParseInt(lens[i]);
        vs := vs + [v];
      }
    }

    method RemovePrefix(n: nat)
      modifies this
      ensures State() == AfterParse(old(State()), n)
    {
      CheckSize(n);
      if error != NoError {
        return;
      }
      buffer := buffer[n..];
    }
  }

  lemma PowPositive(n: nat)
    ensures Pow256(n) > 0
  {
  }

  /** The byte `k` places above the lowest. */
  function ByteAbove(val: nat, k: nat): byte {
    if k == 0 then val % 0x100 else ByteAbove(val / 0x100, k - 1)
  }

  lemma {:induction false} ByteOf(val: nat, len: nat, i: nat)
    requires i < len
    ensures ToBytes(val, len)[i] == ByteAbove(val, len - 1 - i)
  {
    if i < len - 1 {
      ByteOf(val / 0x100, len - 1, i);
    }
  }

  /** Appends the bytes of `val` from the most significant one down. */
  method UnparseInt(s: seq<byte>, val: nat, len: nat) returns (r: seq<byte>)
    ensures r == s + ToBytes(val, len)
  {
    r := s;
    for i := 0 to len
      invariant r == s + ToBytes(val, len)[..i]
    {
      ByteOf(val, len, i);
      r := r + [ByteAbove(val, len - i - 1)];
    }
  }

  /** Appends fields one after the other. */
  method WriteFields(fs: seq<Field>) returns (r: seq<byte>)
    ensures r == Packed(fs)
  {
    r := [];
    for i := 0 to |fs|
      invariant r == Packed(fs[..i])
    {
      assert fs[..i + 1] == fs[..i] + [fs[i]];
      PackedConcat(fs[..i], [fs[i]]);
      assert [fs[i]][1..] == [];
      r := UnparseInt(r, fs[i].val, fs[i].len);
    }
    assert fs[..|fs|] == fs;
  }
}
