/**
 * The byte streams that the shard request is written to and read from, with the
 * variable-length integer of Elasticsearch's StreamOutput.writeVInt / StreamInput.readVInt:
 * the 32 bits of a Java int in 7-bit groups, least significant group first, the high bit
 * of each byte set when another byte follows. For a non-negative int this is unsigned
 * LEB128 (DWARF version 4, section 7.6); a negative int is written through its unsigned
 * 32-bit reading and therefore takes five bytes.
 */
module Stream {
  import opened Common

  type byte = b: int | 0 <= b < 256

  const TwoTo31: int := 0x8000_0000
  const TwoTo32: int := 0x1_0000_0000

  /**
   * The outcome of reading a value at a position of a stream: the value and the position
   * right after it, or Failed where the Java code throws (end of stream, a malformed value).
   */
  datatype Decoded<T> = Failed | Decoded(value: T, next: nat)

  /** A Java int. */
  type Int32 = i: int | -0x8000_0000 <= i < 0x8000_0000

  /** The unsigned 32-bit reading of a Java int (what `>>>` shifts). */
  function ToUnsigned(i: Int32): (u: nat)
    ensures u < TwoTo32
  {
    if i < 0 then i + TwoTo32 else i
  }

  /** The Java int whose unsigned 32-bit reading is `u`. */
  function ToSigned(u: nat): Int32
    requires u < TwoTo32
  {
    if u < TwoTo31 then u else u - TwoTo32
  }

  function Pow128(k: nat): (p: nat)
    ensures p >= 1
  {
    if k == 0 then 1 else 128 * Pow128(k - 1)
  }

  /** Unsigned LEB128: 7-bit groups, least significant first, high bit = "more follows". */
  function EncodeVarUInt(u: nat): (r: seq<byte>)
    ensures |r| >= 1
    decreases u
  {
    if u < 128 then [u] else [u % 128 + 128] + EncodeVarUInt(u / 128)
  }

  /** The bytes writeVInt produces for a Java int. */
  function EncodeVInt(i: Int32): seq<byte>
  {
    EncodeVarUInt(ToUnsigned(i))
  }

  /**
   * Reads at most `k` groups starting at position `p` of `s`; the last allowed group is taken
   * whatever its high bit says. Yields the accumulated value and the position after the groups.
   */
  function DecodeGroups(s: seq<byte>, p: nat, k: nat): (r: Decoded<nat>)
    requires k >= 1
    ensures r.Decoded? ==> p < r.next <= p + k && r.next <= |s|
    decreases k
  {
    if p >= |s| then Failed
    else if s[p] < 128 || k == 1 then Decoded(s[p] % 128, p + 1)
    else
      match DecodeGroups(s, p + 1, k - 1)
      case Failed => Failed
      case Decoded(v, q) => Decoded(s[p] % 128 + 128 * v, q)
  }

  /**
   * What readVInt yields at position `p` of `s`: at most five bytes are read, the groups land
   * in a 32-bit int (so the top bits of a fifth group are lost) and the int is signed.
   */
  function DecodeVInt(s: seq<byte>, p: nat): (r: Decoded<Int32>)
    ensures r.Decoded? ==> p < r.next <= p + 5 && r.next <= |s|
  {
    match DecodeGroups(s, p, 5)
    case Failed => Failed
    case Decoded(v, q) => Decoded(ToSigned(v % TwoTo32), q)
  }

  /** What readByte yields at position `p` of `s`. */
  function DecodeByte(s: seq<byte>, p: nat): (r: Decoded<byte>)
    ensures r.Decoded? ==> r.next == p + 1 <= |s|
  {
    if p >= |s| then Failed else Decoded(s[p], p + 1)
  }

  /** What readBoolean yields: any byte other than 0 reads as true. */
  function DecodeBoolean(s: seq<byte>, p: nat): (r: Decoded<bool>)
    ensures r.Decoded? ==> r.next == p + 1 <= |s|
  {
    match DecodeByte(s, p)
    case Failed => Failed
    case Decoded(b, q) => Decoded(b != 0, q)
  }

  /** The byte writeBoolean produces. */
  function EncodeBoolean(b: bool): byte
  {
    if b then 1 else 0
  }

  /**
   * Runs a decoder of a larger value at position `p` of `s`; a decoder that claims to end
   * before `p` or past the end of `s` is treated as reading past the end.
   */
  function DecodeWith<T>(decode: (seq<byte>, nat) -> Decoded<T>, s: seq<byte>, p: nat): (r: Decoded<T>)
    ensures r.Decoded? ==> p <= r.next <= |s|
  {
    match decode(s, p)
    case Failed => Failed
    case Decoded(x, q) => if p <= q <= |s| then Decoded(x, q) else Failed
  }

  /** The bytes `e` sit in `s` from position `p` on. */
  ghost predicate IsAt(s: seq<byte>, p: nat, e: seq<byte>)
  {
    p + |e| <= |s| && Matches(s, p, e)
  }

  /** Byte by byte, `s` from position `p` on starts with `e`. */
  ghost predicate Matches(s: seq<byte>, p: nat, e: seq<byte>)
    decreases |e|
  {
    e == [] || (p < |s| && s[p] == e[0] && Matches(s, p + 1, e[1..]))
  }

  /** Bytes that sit somewhere are the bytes of their two halves, one after the other. */
  lemma {:induction false} IsAtSplit(s: seq<byte>, p: nat, a: seq<byte>, b: seq<byte>)
    ensures IsAt(s, p, a + b) <==> IsAt(s, p, a) && IsAt(s, p + |a|, b)
    decreases |a|
  {
    if a == [] {
      assert a + b == b;
    } else {
      assert (a + b)[0] == a[0] && (a + b)[1..] == a[1..] + b;
      IsAtSplit(s, p + 1, a[1..], b);
    }
  }

  /** A stream holds its middle part right after its first part. */
  lemma {:induction false} IsAtConcat(pre: seq<byte>, e: seq<byte>, rest: seq<byte>)
    ensures IsAt(pre + e + rest, |pre|, e)
    decreases |e|
  {
    if e != [] {
      assert (pre + [e[0]]) + e[1..] + rest == pre + e + rest;
      IsAtConcat(pre + [e[0]], e[1..], rest);
    }
  }

  lemma {:induction false} DecodeGroupsOfEncoding(s: seq<byte>, p: nat, u: nat, k: nat)
    requires 1 <= k && u < Pow128(k) && IsAt(s, p, EncodeVarUInt(u))
    ensures DecodeGroups(s, p, k) == Decoded(u, p + |EncodeVarUInt(u)|)
    decreases u
  {
    if u >= 128 {
      assert k >= 2;
      assert u / 128 < Pow128(k - 1);
      IsAtSplit(s, p, [u % 128 + 128], EncodeVarUInt(u / 128));
      DecodeGroupsOfEncoding(s, p + 1, u / 128, k - 1);
    }
  }

  /**
   * Wherever the bytes writeVInt wrote sit in a stream, readVInt reads back exactly the int
   * they encode and stops right after them; there are at most five of them.
   */
  lemma VIntRoundTrip(s: seq<byte>, p: nat, i: Int32)
    requires IsAt(s, p, EncodeVInt(i))
    ensures |EncodeVInt(i)| <= 5
    ensures DecodeVInt(s, p) == Decoded(i, p + |EncodeVInt(i)|)
  {
    assert Pow128(5) == 34359738368;
    DecodeGroupsOfEncoding(s, p, ToUnsigned(i), 5);
    SignedUnsigned(i);
  }

  /** Concatenation of bytes regroups freely. */
  lemma AppendAssoc(a: seq<byte>, b: seq<byte>, c: seq<byte>)
    ensures (a + b) + c == a + (b + c)
  {
  }

  lemma SignedUnsigned(i: Int32)
    ensures ToSigned(ToUnsigned(i) % TwoTo32) == i
  {
  }

  /** An output stream: the bytes written so far. */
  class StreamOutput {
    var bytes: seq<byte>

    constructor ()
      ensures bytes == []
    {
      bytes := [];
    }

    method WriteByte(b: byte)
      modifies this
      ensures bytes == old(bytes) + [b]
    {
      bytes := bytes + [b];
    }

    method WriteBytes(b: seq<byte>)
      modifies this
      ensures bytes == old(bytes) + b
    {
      bytes := bytes + b;
    }

    method WriteBoolean(b: bool)
      modifies this
      ensures bytes == old(bytes) + [EncodeBoolean(b)]
    {
      WriteByte(if b then 1 else 0);
    }

    /** writeVInt: emit low groups with the continuation bit while bits above the low 7 remain. */
    method WriteVInt(i: Int32)
      modifies this
      ensures bytes == old(bytes) + EncodeVInt(i)
    {
      var u := ToUnsigned(i);
      while u >= 128
        invariant bytes + EncodeVarUInt(u) == old(bytes) + EncodeVInt(i)
        decreases u
      {
        WriteByte(u % 128 + 128);
        u := u / 128;
      }
      WriteByte(u);
    }
  }

  /** An input stream over fixed bytes, with a read position. */
  class StreamInput {
    const data: seq<byte>
    var pos: nat

    ghost predicate Valid()
      reads this
    {
      pos <= |data|
    }

    constructor (data: seq<byte>)
      ensures Valid() && this.data == data && pos == 0
    {
      this.data := data;
      pos := 0;
    }

    method ReadByte() returns (r: Option<byte>)
      requires Valid()
      modifies this
      ensures Valid()
      ensures DecodeByte(data, old(pos)) == if r.Some? then Decoded(r.value, pos) else Failed
    {
      if pos < |data| {
        r := Some(data[pos]);
        pos := pos + 1;
      } else {
        r := None;
      }
    }

    method ReadBoolean() returns (r: Option<bool>)
      requires Valid()
      modifies this
      ensures Valid()
      ensures DecodeBoolean(data, old(pos)) == if r.Some? then Decoded(r.value, pos) else Failed
    {
      var b := ReadByte();
      r := if b.Some? then Some(b.value != 0) else None;
    }

    method ReadVInt() returns (r: Option<Int32>)
      requires Valid()
      modifies this
      ensures Valid()
      ensures DecodeVInt(data, old(pos)) == if r.Some? then Decoded(r.value, pos) else Failed
    {
      match DecodeVInt(data, pos)
      case Failed =>
        r := None;
      case Decoded(v, q) =>
        r := Some(v);
        pos := q;
    }

    /** Hands the stream to a decoder of a larger value and moves past what it read. */
    method ReadWith<T>(decode: (seq<byte>, nat) -> Decoded<T>) returns (r: Option<T>)
      requires Valid()
      modifies this
      ensures Valid()
      ensures DecodeWith(decode, data, old(pos)) == if r.Some? then Decoded(r.value, pos) else Failed
    {
      match DecodeWith(decode, data, pos)
      case Failed =>
        r := None;
      case Decoded(v, q) =>
        r := Some(v);
        pos := q;
    }
  }
}
