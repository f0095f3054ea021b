/** Bounded little-endian encoding: fixed-width fields, and the writer and reader that produce and
    consume them. */
module Bytes {
  import opened Wrappers

  type Byte = x: nat | x < 256

  function Power(width: nat): (p: nat)
    ensures p > 0
  {
    if width == 0 then 1 else 256 * Power(width - 1)
  }

  /** The `width` low bytes of v, least significant first. */
  function Le(v: nat, width: nat): (s: seq<Byte>)
    ensures |s| == width
  {
    if width == 0 then [] else [v % 256] + Le(v / 256, width - 1)
  }

  function Value(s: seq<Byte>): nat {
    if s == [] then 0 else s[0] + 256 * Value(s[1..])
  }

  lemma {:induction false} LeRoundTrip(v: nat, width: nat)
    requires v < Power(width)
    ensures Value(Le(v, width)) == v
  {
    if width > 0 {
      LeRoundTrip(v / 256, width - 1);
      assert Le(v, width)[1..] == Le(v / 256, width - 1);
    }
  }

  lemma {:induction false} ValueBound(s: seq<Byte>)
    ensures Value(s) < Power(|s|)
  {
    if s != [] { ValueBound(s[1..]); }
  }

  /** Decoding and encoding are inverse on the bytes as well. */
  lemma {:induction false} ValueRoundTrip(s: seq<Byte>)
    ensures Le(Value(s), |s|) == s
  {
    if s != [] {
      ValueRoundTrip(s[1..]);
      assert (s[0] + 256 * Value(s[1..])) % 256 == s[0] && (s[0] + 256 * Value(s[1..])) / 256 == Value(s[1..]);
    }
  }

  // ----- records of fixed-width fields

  /** A field: its width in bytes, the values a reader accepts and the error for any other. */
  datatype Column = Column(width: nat, low: nat, high: nat, error: Error)

  const BYTE := Column(1, 0, 0xFF, MalformedInput)
  const WORD := Column(2, 0, 0xFFFF, MalformedInput)
  const LONG := Column(4, 0, 0xFFFF_FFFF, MalformedInput)
  const QUAD := Column(8, 0, 0xFFFF_FFFF_FFFF_FFFF, MalformedInput)
  const FLAG := Column(1, 0, 1, MalformedInput)
  /** An identity; the all-ones sentinel is refused. */
  const IDENT := Column(8, 0, 0xFFFF_FFFF_FFFF_FFFE, OutOfRange)

  predicate Passes(c: Column, v: nat) { c.low <= v <= c.high }

  predicate Holds(c: Column, v: nat) { Passes(c, v) && v < Power(c.width) }

  predicate AllHold(columns: seq<Column>, values: seq<nat>) {
    && |columns| == |values|
    && (columns != [] ==> Holds(columns[0], values[0]) && AllHold(columns[1..], values[1..]))
  }

  function Total(columns: seq<Column>): nat {
    if columns == [] then 0 else columns[0].width + Total(columns[1..])
  }

  function Pack(columns: seq<Column>, values: seq<nat>): (s: seq<Byte>)
    requires |columns| == |values|
    ensures |s| == Total(columns)
  {
    if columns == [] then [] else Le(values[0], columns[0].width) + Pack(columns[1..], values[1..])
  }

  /** Read the fields in order, stopping at the first that is missing or refused. */
  function Unpack(columns: seq<Column>, s: seq<Byte>): (r: Result<seq<nat>>)
    ensures r.Ok? ==> |r.value| == |columns|
  {
    if columns == [] then Ok([])
    else if |s| < columns[0].width then Err(TruncatedInput)
    else
      var v := Value(s[..columns[0].width]);
      if !Passes(columns[0], v) then Err(columns[0].error)
      else
        var rest := Unpack(columns[1..], s[columns[0].width..]);
        if rest.Err? then rest else Ok([v] + rest.value)
  }

  lemma SplitFront(head: seq<Byte>, rest: seq<Byte>, tail: seq<Byte>)
    ensures (head + rest + tail)[..|head|] == head && (head + rest + tail)[|head|..] == rest + tail
  {
  }

  /** Values the reader accepts are read back, whatever follows. */
  lemma {:induction false} PackUnpack(columns: seq<Column>, values: seq<nat>, tail: seq<Byte>)
    requires AllHold(columns, values)
    ensures Unpack(columns, Pack(columns, values) + tail) == Ok(values)
  {
    if columns != [] {
      LeRoundTrip(values[0], columns[0].width);
      PackUnpack(columns[1..], values[1..], tail);
      SplitFront(Le(values[0], columns[0].width), Pack(columns[1..], values[1..]), tail);
      assert [values[0]] + values[1..] == values;
    }
  }

  /** Only the packing of the values is read as those values: the encoding is canonical. */
  lemma {:induction false} UnpackPack(columns: seq<Column>, s: seq<Byte>)
    requires Unpack(columns, s).Ok?
    ensures |s| >= Total(columns) && AllHold(columns, Unpack(columns, s).value)
    ensures Pack(columns, Unpack(columns, s).value) == s[..Total(columns)]
  {
    if columns != [] {
      var w := columns[0].width;
      ValueRoundTrip(s[..w]);
      ValueBound(s[..w]);
      UnpackPack(columns[1..], s[w..]);
      var v := Unpack(columns, s).value;
      assert v[1..] == Unpack(columns[1..], s[w..]).value;
      assert s[..w] + s[w..][..Total(columns[1..])] == s[..Total(columns)];
    }
  }

  lemma Powers()
    ensures Power(1) == 0x100 && Power(2) == 0x1_0000 && Power(4) == 0x1_0000_0000
            && Power(8) == 0x1_0000_0000_0000_0000
  {
    assert Power(3) == 0x100_0000;
    assert Power(5) == 0x100_0000_0000 && Power(6) == 0x1_0000_0000_0000 && Power(7) == 0x100_0000_0000_0000;
  }

  /** Checking a row field by field. */
  lemma {:induction false} AllHoldAt(columns: seq<Column>, values: seq<nat>)
    requires |columns| == |values| && forall i :: 0 <= i < |columns| ==> Holds(columns[i], values[i])
    ensures AllHold(columns, values)
  {
    if columns != [] {
      assert forall i :: 0 <= i < |columns| - 1 ==> Holds(columns[1..][i], values[1..][i]) by {
        forall i | 0 <= i < |columns| - 1 ensures Holds(columns[1..][i], values[1..][i]) {
          assert Holds(columns[i + 1], values[i + 1]);
        }
      }
      AllHoldAt(columns[1..], values[1..]);
    }
  }

  lemma TotalFrom(columns: seq<Column>, k: nat)
    requires k < |columns|
    ensures Total(columns[k..]) == columns[k].width + Total(columns[k + 1..])
  {
    assert columns[k..][1..] == columns[k + 1..];
  }

  // ----- writer and reader

  class ByteWriter {
    const capacity: nat
    var buffer: seq<Byte>

    constructor (capacity: nat)
      ensures buffer == [] && this.capacity == capacity
    {
      this.capacity := capacity;
      buffer := [];
    }

    /** Append one little-endian field, or refuse when it does not fit the capacity. */
    method Put(width: nat, v: nat) returns (status: Status)
      modifies this
      ensures status == (if |old(buffer)| + width > capacity then Failed(OversizedInput) else Success)
      ensures buffer == if status == Success then old(buffer) + Le(v, width) else old(buffer)
    {
      if |buffer| + width > capacity { return Failed(OversizedInput); }
      var rest := v;
      for i := 0 to width
        invariant Le(v, width) == Le(v, width)[..i] + Le(rest, width - i)
        invariant buffer == old(buffer) + Le(v, width)[..i]
      {
        ghost var all := Le(v, width);
        assert all[..i + 1] == all[..i] + [rest % 256] by {
          assert all == all[..i] + ([rest % 256] + Le(rest / 256, width - i - 1));
        }
        buffer := buffer + [rest % 256];
        rest := rest / 256;
      }
      assert Le(v, width)[..width] == Le(v, width);
      return Success;
    }
  }

  class ByteReader {
    const data: seq<Byte>
    var offset: nat

    ghost predicate Valid()
      reads this
    {
      offset <= |data|
    }

    constructor (data: seq<Byte>)
      ensures Valid() && this.data == data && offset == 0
    {
      this.data := data;
      offset := 0;
    }

    /** Read one little-endian field, or refuse when too few bytes remain. */
    method Get(width: nat) returns (r: Result<nat>)
      requires Valid()
      modifies this
      ensures Valid()
      ensures r == if |data| - old(offset) < width then Err(TruncatedInput)
                   else Ok(Value(data[old(offset)..old(offset) + width]))
      ensures offset == if r.Ok? then old(offset) + width else old(offset)
    {
      if |data| - offset < width { return Err(TruncatedInput); }
      var v: nat, weight: nat := 0, 1;
      ghost var field := data[offset..offset + width];
      for i := 0 to width
        invariant offset == old(offset) && weight == Power(i) && v == Value(field[..i])
      {
        ValueSnoc(field[..i], data[offset + i]);
        assert field[..i] + [data[offset + i]] == field[..i + 1];
        v := v + weight * data[offset + i];
        weight := weight * 256;
      }
      assert field[..width] == field;
      offset := offset + width;
      return Ok(v);
    }
  }

  lemma {:induction false} ValueSnoc(s: seq<Byte>, b: Byte)
    ensures Value(s + [b]) == Value(s) + Power(|s|) * b
  {
    if s == [] {
      assert [b][1..] == [];
    } else {
      ValueSnoc(s[1..], b);
      assert (s + [b])[1..] == s[1..] + [b];
      Reassociate(Power(|s| - 1), b);
    }
  }

  lemma Reassociate(p: nat, b: nat)
    ensures 256 * (p * b) == 256 * p * b
  {
  }
}
