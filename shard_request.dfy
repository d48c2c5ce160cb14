/**
 * IngestIndexShardRequest: the per-shard part of an ingest request and its wire codec.
 * After the fields inherited from the replication request, writeTo emits the shard id
 * (VInt), the number of slots (VInt, absent slots included) and, per slot, a presence
 * boolean followed by the item when the slot holds one. readFrom reads the same layout
 * but appends only the present items, so the slots that were absent are gone after a
 * round trip.
 *
 * The item encoding belongs to IngestIndexItemRequest and is a parameter here: an
 * encoder and a decoder, assumed to round-trip (RoundTrips).
 */
module ShardRequest {
  import opened Common
  import opened Stream

  /**
   * The item request's own codec: writeTo of one item, and readBulkItem, which reads an item
   * at a position of the stream and yields it with the position after it.
   */
  datatype ItemCodec<!T> = ItemCodec(encode: T -> seq<byte>, decode: (seq<byte>, nat) -> Decoded<T>)

  /** Wherever an item's encoding sits in a stream, the decoder reads back that item and stops after it. */
  ghost predicate RoundTrips<T(!new)>(c: ItemCodec<T>)
  {
    forall x: T, s: seq<byte>, p: nat {:trigger c.decode(s, p), c.encode(x)} ::
      IsAt(s, p, c.encode(x)) ==> c.decode(s, p) == Decoded(x, p + |c.encode(x)|)
  }

  /** A Java list has an int size. */
  ghost predicate FitsInt<X>(s: seq<X>)
  {
    |s| < TwoTo31
  }

  /** The bytes of one slot: a presence boolean, then the item if there is one. */
  function EncodeSlot<T>(c: ItemCodec<T>, slot: Option<T>): seq<byte>
  {
    match slot
    case Some(x) => [EncodeBoolean(true)] + c.encode(x)
    case None => [EncodeBoolean(false)]
  }

  function EncodeSlots<T>(c: ItemCodec<T>, items: seq<Option<T>>): seq<byte>
  {
    if items == [] then [] else EncodeSlot(c, items[0]) + EncodeSlots(c, items[1..])
  }

  /** The shard-specific part of writeTo. */
  function EncodeShardRequest<T>(c: ItemCodec<T>, shardId: Int32, items: seq<Option<T>>): seq<byte>
    requires FitsInt(items)
  {
    EncodeVInt(shardId) + EncodeVInt(|items|) + EncodeSlots(c, items)
  }

  /**
   * The loop of readFrom over `count` slots from position `p`: the present items in the order
   * read, and the position after the last slot. None stands for an exception from the stream
   * or the item decoder.
   */
  function DecodeSlots<T>(c: ItemCodec<T>, s: seq<byte>, p: nat, count: nat): (r: Decoded<seq<Option<T>>>)
    requires p <= |s|
    ensures r.Decoded? ==> p <= r.next <= |s|
    decreases count
  {
    if count == 0 then Decoded([], p)
    else
      match DecodeBoolean(s, p)
      case Failed => Failed
      case Decoded(present, q) =>
        if present then
          match DecodeWith(c.decode, s, q)
          case Failed => Failed
          case Decoded(x, q') => Chain([Some(x)], DecodeSlots(c, s, q', count - 1))
        else
          DecodeSlots(c, s, q, count - 1)
  }

  /**
   * The items the loop of readFrom has appended when it stops: all present items when it reads
   * every slot, and those before the slot whose flag or item could not be read when it throws.
   */
  function SlotsRead<T>(c: ItemCodec<T>, s: seq<byte>, p: nat, count: nat): seq<Option<T>>
    requires p <= |s|
    decreases count
  {
    if count == 0 then []
    else
      match DecodeBoolean(s, p)
      case Failed => []
      case Decoded(present, q) =>
        if present then
          match DecodeWith(c.decode, s, q)
          case Failed => []
          case Decoded(x, q') => [Some(x)] + SlotsRead(c, s, q', count - 1)
        else
          SlotsRead(c, s, q, count - 1)
  }

  /** When the loop reads every slot, what it appended is what it returns. */
  lemma {:induction false} SlotsReadComplete<T>(c: ItemCodec<T>, s: seq<byte>, p: nat, count: nat)
    requires p <= |s| && DecodeSlots(c, s, p, count).Decoded?
    ensures DecodeSlots(c, s, p, count).value == SlotsRead(c, s, p, count)
    decreases count
  {
    if count > 0 {
      match DecodeBoolean(s, p)
      case Decoded(present, q) =>
        if present {
          match DecodeWith(c.decode, s, q)
          case Decoded(x, q') =>
            SlotsReadComplete(c, s, q', count - 1);
        } else {
          SlotsReadComplete(c, s, q, count - 1);
        }
    }
  }

  /** What readFrom leaves in the request, and the position after what it read. */
  datatype ShardRequestData<T> = ShardRequestData(shardId: Int32, items: seq<Option<T>>, end: nat)

  /**
   * readFrom from position `p`, where the inherited fields end; a negative slot count makes
   * the loop run zero times.
   */
  function DecodeShardRequest<T>(c: ItemCodec<T>, s: seq<byte>, p: nat): (r: Option<ShardRequestData<T>>)
    requires p <= |s|
    ensures r.Some? ==> p < r.value.end <= |s|
  {
    match DecodeVInt(s, p)
    case Failed => None
    case Decoded(shardId, p1) =>
      match DecodeVInt(s, p1)
      case Failed => None
      case Decoded(size, p2) =>
        match DecodeSlots(c, s, p2, if size < 0 then 0 else size)
        case Failed => None
        case Decoded(items, e) => Some(ShardRequestData(shardId, items, e))
  }

  /** One slot of writeTo: the presence flag, then the item if the slot holds one. */
  method WriteSlot<T>(out: StreamOutput, c: ItemCodec<T>, slot: Option<T>)
    modifies out
    ensures out.bytes == old(out.bytes) + EncodeSlot(c, slot)
  {
    if slot.Some? {
      out.WriteBoolean(true);
      out.WriteBytes(c.encode(slot.value));
    } else {
      out.WriteBoolean(false);
    }
  }

  /** The loop of writeTo over the slots, in order. */
  method WriteSlots<T>(out: StreamOutput, c: ItemCodec<T>, slots: seq<Option<T>>)
    modifies out
    ensures out.bytes == old(out.bytes) + EncodeSlots(c, slots)
  {
    ghost var header := out.bytes;
    var i := 0;
    while i < |slots|
      invariant 0 <= i <= |slots|
      invariant out.bytes == header + EncodeSlots(c, slots[..i])
    {
      EncodeSlotsAppend(c, slots[..i], slots[i]);
      assert slots[..i + 1] == slots[..i] + [slots[i]];
      WriteSlot(out, c, slots[i]);
      AppendAssoc(header, EncodeSlots(c, slots[..i]), EncodeSlot(c, slots[i]));
      i := i + 1;
    }
    assert slots[..i] == slots;
  }

  /**
   * The loop of readFrom over `count` slots: reads a presence flag per slot and, when it is
   * set, an item, which is appended. `ok` is false where the Java code throws; `items` is then
   * what was appended before.
   */
  method ReadSlots<T>(input: StreamInput, c: ItemCodec<T>, count: nat) returns (ok: bool, items: seq<Option<T>>)
    requires input.Valid()
    modifies input
    ensures input.Valid()
    ensures items == SlotsRead(c, input.data, old(input.pos), count)
    ensures DecodeSlots(c, input.data, old(input.pos), count)
         == if ok then Decoded(items, input.pos) else Failed
  {
    items := [];
    ghost var base := input.pos;
    ChainNothing(DecodeSlots(c, input.data, base, count));
    assert SlotsRead(c, input.data, base, count) == items + SlotsRead(c, input.data, base, count);
    var i := 0;
    while i < count
      invariant 0 <= i <= count
      invariant input.Valid() && base <= input.pos
      invariant DecodeSlots(c, input.data, base, count)
             == Chain(items, DecodeSlots(c, input.data, input.pos, count - i))
      invariant SlotsRead(c, input.data, base, count) == items + SlotsRead(c, input.data, input.pos, count - i)
    {
      ghost var p := input.pos;
      var present := input.ReadBoolean();
      if present.None? {
        DecodeSlotsNoFlag(c, input.data, p, count - i);
        assert items + [] == items;
        return false, items;
      }
      if present.value {
        ghost var q := input.pos;
        var x := input.ReadWith(c.decode);
        if x.None? {
          DecodeSlotsNoItem(c, input.data, p, count - i, q);
          assert items + [] == items;
          return false, items;
        }
        DecodeSlotsPresent(c, input.data, p, count - i, q, x.value, input.pos);
        ChainChain(items, [Some(x.value)], DecodeSlots(c, input.data, input.pos, count - i - 1));
        assert items + ([Some(x.value)] + SlotsRead(c, input.data, input.pos, count - i - 1))
            == (items + [Some(x.value)]) + SlotsRead(c, input.data, input.pos, count - i - 1);
        items := items + [Some(x.value)];
      } else {
        DecodeSlotsAbsent(c, input.data, p, count - i, input.pos);
      }
      i := i + 1;
    }
    ChainDone(items, input.pos);
    assert items + [] == items;
    ok := true;
  }

  /** Prepends what has been read so far to the outcome of reading the rest. */
  function Chain<T>(done: seq<Option<T>>, r: Decoded<seq<Option<T>>>): Decoded<seq<Option<T>>>
  {
    match r
    case Failed => Failed
    case Decoded(xs, e) => Decoded(done + xs, e)
  }

  lemma ChainNothing<T>(r: Decoded<seq<Option<T>>>)
    ensures Chain([], r) == r
  {
    match r
    case Failed =>
    case Decoded(xs, e) =>
      assert [] + xs == xs;
  }

  /** Reading on after `a` and then `b` is reading on after `a + b`. */
  lemma ChainChain<T>(a: seq<Option<T>>, b: seq<Option<T>>, r: Decoded<seq<Option<T>>>)
    ensures Chain(a, Chain(b, r)) == Chain(a + b, r)
  {
    match r
    case Failed =>
    case Decoded(xs, e) =>
      assert a + (b + xs) == (a + b) + xs;
  }

  lemma ChainDone<T>(done: seq<Option<T>>, e: nat)
    ensures Chain(done, Decoded([], e)) == Decoded(done, e)
  {
    assert done + [] == done;
  }

  /** A slot whose flag is set and whose item reads is that item, then the remaining slots. */
  lemma DecodeSlotsPresent<T>(c: ItemCodec<T>, s: seq<byte>, p: nat, n: nat, q: nat, x: T, q': nat)
    requires p <= |s| && n >= 1
    requires DecodeBoolean(s, p) == Decoded(true, q) && DecodeWith(c.decode, s, q) == Decoded(x, q')
    ensures q' <= |s| && DecodeSlots(c, s, p, n) == Chain([Some(x)], DecodeSlots(c, s, q', n - 1))
    ensures SlotsRead(c, s, p, n) == [Some(x)] + SlotsRead(c, s, q', n - 1)
  {
  }

  /** A slot whose flag is clear is skipped. */
  lemma DecodeSlotsAbsent<T>(c: ItemCodec<T>, s: seq<byte>, p: nat, n: nat, q: nat)
    requires p <= |s| && n >= 1 && DecodeBoolean(s, p) == Decoded(false, q)
    ensures q <= |s| && DecodeSlots(c, s, p, n) == DecodeSlots(c, s, q, n - 1)
    ensures SlotsRead(c, s, p, n) == SlotsRead(c, s, q, n - 1)
  {
  }

  /** A flag that cannot be read fails the loop. */
  lemma DecodeSlotsNoFlag<T>(c: ItemCodec<T>, s: seq<byte>, p: nat, n: nat)
    requires p <= |s| && n >= 1 && DecodeBoolean(s, p).Failed?
    ensures DecodeSlots(c, s, p, n).Failed? && SlotsRead(c, s, p, n) == []
  {
  }

  /** A set flag followed by an item that cannot be read fails the loop. */
  lemma DecodeSlotsNoItem<T>(c: ItemCodec<T>, s: seq<byte>, p: nat, n: nat, q: nat)
    requires p <= |s| && n >= 1
    requires DecodeBoolean(s, p) == Decoded(true, q) && DecodeWith(c.decode, s, q).Failed?
    ensures DecodeSlots(c, s, p, n).Failed? && SlotsRead(c, s, p, n) == []
  {
  }

  /** The list with its absent slots dropped. */
  function Compact<T>(items: seq<Option<T>>): (r: seq<Option<T>>)
    ensures forall j :: 0 <= j < |r| ==> r[j].Some?
  {
    if items == [] then []
    else (if items[0].Some? then [items[0]] else []) + Compact(items[1..])
  }

  ghost predicate NoAbsentSlot<T>(items: seq<Option<T>>)
  {
    forall j :: 0 <= j < |items| ==> items[j].Some?
  }

  lemma {:induction false} EncodeSlotsAppend<T>(c: ItemCodec<T>, items: seq<Option<T>>, slot: Option<T>)
    ensures EncodeSlots(c, items + [slot]) == EncodeSlots(c, items) + EncodeSlot(c, slot)
  {
    if items == [] {
      assert [slot][1..] == [];
    } else {
      assert (items + [slot])[1..] == items[1..] + [slot];
      EncodeSlotsAppend(c, items[1..], slot);
    }
  }

  /** One slot, read where its encoding sits, followed by `n` more slots. */
  lemma DecodeSlotOf<T(!new)>(c: ItemCodec<T>, s: seq<byte>, p: nat, slot: Option<T>, n: nat)
    requires RoundTrips(c) && IsAt(s, p, EncodeSlot(c, slot))
    ensures DecodeSlots(c, s, p, n + 1)
         == Chain(if slot.Some? then [slot] else [], DecodeSlots(c, s, p + |EncodeSlot(c, slot)|, n))
  {
    match slot
    case Some(x) =>
      IsAtSplit(s, p, [1], c.encode(x));
      assert c.decode(s, p + 1) == Decoded(x, p + 1 + |c.encode(x)|);
    case None =>
      match DecodeSlots(c, s, p + 1, n)
      case Failed =>
      case Decoded(xs, e) =>
        assert [] + xs == xs;
  }

  /**
   * Wherever the encoding of a list of slots sits in a stream, reading `|items|` slots there
   * yields the present items in order and stops right after the encoding.
   */
  lemma {:induction false} SlotsRoundTrip<T(!new)>(c: ItemCodec<T>, s: seq<byte>, p: nat, items: seq<Option<T>>)
    requires RoundTrips(c) && IsAt(s, p, EncodeSlots(c, items))
    ensures DecodeSlots(c, s, p, |items|) == Decoded(Compact(items), p + |EncodeSlots(c, items)|)
    decreases |items|
  {
    if items != [] {
      SlotsSplit(c, s, p, items);
      SlotsRoundTrip(c, s, p + |EncodeSlot(c, items[0])|, items[1..]);
      SlotsStep(c, s, p, items);
    }
  }

  /** Where the encoding of a non-empty list of slots sits, the first slot's sits, then the rest's. */
  lemma SlotsSplit<T>(c: ItemCodec<T>, s: seq<byte>, p: nat, items: seq<Option<T>>)
    requires items != [] && IsAt(s, p, EncodeSlots(c, items))
    ensures IsAt(s, p, EncodeSlot(c, items[0]))
    ensures IsAt(s, p + |EncodeSlot(c, items[0])|, EncodeSlots(c, items[1..]))
  {
    IsAtSplit(s, p, EncodeSlot(c, items[0]), EncodeSlots(c, items[1..]));
  }

  /** The first slot read, followed by the rest as already read back. */
  lemma SlotsStep<T(!new)>(c: ItemCodec<T>, s: seq<byte>, p: nat, items: seq<Option<T>>)
    requires RoundTrips(c) && items != [] && IsAt(s, p, EncodeSlots(c, items))
    requires var q := p + |EncodeSlot(c, items[0])|;
             q <= |s| && DecodeSlots(c, s, q, |items[1..]|) == Decoded(Compact(items[1..]), q + |EncodeSlots(c, items[1..])|)
    ensures DecodeSlots(c, s, p, |items|) == Decoded(Compact(items), p + |EncodeSlots(c, items)|)
  {
    SlotsSplit(c, s, p, items);
    DecodeSlotOf(c, s, p, items[0], |items[1..]|);
    assert Compact(items) == (if items[0].Some? then [items[0]] else []) + Compact(items[1..]);
    assert |EncodeSlots(c, items)| == |EncodeSlot(c, items[0])| + |EncodeSlots(c, items[1..])|;
  }

  /**
   * Wherever an encoded shard request sits in a stream (after the inherited fields, say),
   * decoding there gives back its shard id and exactly its present items, and stops right
   * after the encoding.
   */
  lemma ShardRequestRoundTrip<T(!new)>(c: ItemCodec<T>, s: seq<byte>, p: nat, shardId: Int32, items: seq<Option<T>>)
    requires RoundTrips(c) && FitsInt(items) && IsAt(s, p, EncodeShardRequest(c, shardId, items))
    ensures DecodeShardRequest(c, s, p)
         == Some(ShardRequestData(shardId, Compact(items), p + |EncodeShardRequest(c, shardId, items)|))
  {
    var p1 := p + |EncodeVInt(shardId)|;
    var p2 := p1 + |EncodeVInt(|items|)|;
    var e := p + |EncodeShardRequest(c, shardId, items)|;
    ShardRequestParts(c, s, p, shardId, items);
    HeaderRoundTrip(s, p, shardId, |items|);
    SlotsRoundTrip(c, s, p2, items);
    DecodeShardRequestOf(c, s, p, shardId, p1, |items|, p2, Compact(items), e);
  }

  /** The two VInts in front of the slots read back as written. */
  lemma HeaderRoundTrip(s: seq<byte>, p: nat, shardId: Int32, size: Int32)
    requires IsAt(s, p, EncodeVInt(shardId)) && IsAt(s, p + |EncodeVInt(shardId)|, EncodeVInt(size))
    ensures DecodeVInt(s, p) == Decoded(shardId, p + |EncodeVInt(shardId)|)
    ensures DecodeVInt(s, p + |EncodeVInt(shardId)|) == Decoded(size, p + |EncodeVInt(shardId)| + |EncodeVInt(size)|)
  {
    VIntRoundTrip(s, p, shardId);
    VIntRoundTrip(s, p + |EncodeVInt(shardId)|, size);
  }

  /** Where an encoded shard request sits, its three parts sit one after the other. */
  lemma ShardRequestParts<T>(c: ItemCodec<T>, s: seq<byte>, p: nat, shardId: Int32, items: seq<Option<T>>)
    requires FitsInt(items) && IsAt(s, p, EncodeShardRequest(c, shardId, items))
    ensures var a := EncodeVInt(shardId);
            var b := EncodeVInt(|items|);
            && IsAt(s, p, a) && IsAt(s, p + |a|, b) && IsAt(s, p + |a| + |b|, EncodeSlots(c, items))
            && |EncodeShardRequest(c, shardId, items)| == |a| + |b| + |EncodeSlots(c, items)|
  {
    var a := EncodeVInt(shardId);
    var b := EncodeVInt(|items|);
    IsAtSplit(s, p, a + b, EncodeSlots(c, items));
    IsAtSplit(s, p, a, b);
  }

  /** DecodeShardRequest, once the results of its three reads are known. */
  lemma DecodeShardRequestOf<T>(c: ItemCodec<T>, s: seq<byte>, p: nat, shardId: Int32, p1: nat, size: Int32, p2: nat,
                                items: seq<Option<T>>, e: nat)
    requires p <= |s|
    requires DecodeVInt(s, p) == Decoded(shardId, p1)
    requires DecodeVInt(s, p1) == Decoded(size, p2)
    requires size >= 0 && DecodeSlots(c, s, p2, size) == Decoded(items, e)
    ensures DecodeShardRequest(c, s, p) == Some(ShardRequestData(shardId, items, e))
  {
  }

  /** The encoded slot count is the full list size: absent slots count toward it. */
  lemma EncodedCountIncludesAbsentSlots<T>(c: ItemCodec<T>, shardId: Int32, items: seq<Option<T>>)
    requires FitsInt(items)
    ensures DecodeVInt(EncodeShardRequest(c, shardId, items), |EncodeVInt(shardId)|)
         == Decoded(|items|, |EncodeVInt(shardId)| + |EncodeVInt(|items|)|)
  {
    var s := EncodeShardRequest(c, shardId, items);
    var a := EncodeVInt(shardId);
    var b := EncodeVInt(|items|);
    IsAtConcat([], s, []);
    assert [] + s + [] == s;
    IsAtSplit(s, 0, a + b, EncodeSlots(c, items));
    IsAtSplit(s, 0, a, b);
    VIntRoundTrip(s, |a|, |items|);
  }

  /** Dropping absent slots never lengthens the list, and keeps its length iff no slot is absent. */
  lemma {:induction false} CompactLength<T>(items: seq<Option<T>>)
    ensures |Compact(items)| <= |items|
    ensures |Compact(items)| == |items| <==> NoAbsentSlot(items)
  {
    if items != [] {
      CompactLength(items[1..]);
      if NoAbsentSlot(items) {
        assert NoAbsentSlot(items[1..]) by {
          forall j | 0 <= j < |items[1..]| ensures items[1..][j].Some? {
            assert items[1..][j] == items[j + 1];
          }
        }
      } else if items[0].Some? {
        assert !NoAbsentSlot(items[1..]) by {
          var j :| 0 <= j < |items| && !items[j].Some?;
          assert items[1..][j - 1] == items[j];
        }
      }
    }
  }

  /**
   * Dropping absent slots works slot by slot, left to right: the present items of two lists
   * one after the other are those of the first, then those of the second. With the two
   * one-slot cases this fixes Compact, and so says that the present items keep their order.
   */
  lemma {:induction false} CompactAppend<T>(a: seq<Option<T>>, b: seq<Option<T>>)
    ensures Compact(a + b) == Compact(a) + Compact(b)
    decreases |a|
  {
    if a == [] {
      assert a + b == b;
    } else {
      assert (a + b)[0] == a[0] && (a + b)[1..] == a[1..] + b;
      CompactAppend(a[1..], b);
    }
  }

  lemma CompactSingle<T>(slot: Option<T>)
    ensures Compact([slot]) == if slot.Some? then [slot] else []
  {
    assert [slot][1..] == [];
  }

  /** An item is kept iff it is present somewhere in the list. */
  lemma {:induction false} CompactMembers<T>(items: seq<Option<T>>, x: Option<T>)
    ensures x in Compact(items) <==> x.Some? && x in items
  {
    if items != [] {
      CompactMembers(items[1..], x);
      assert items == [items[0]] + items[1..];
    }
  }

  /**
   * The intended design, which asks that decoding restore the positional list, does not hold:
   * a list that starts with an absent slot comes back shorter.
   */
  lemma AbsentSlotIsLost<T(!new)>(c: ItemCodec<T>, shardId: Int32, x: T)
    requires RoundTrips(c)
    ensures var items := [None, Some(x)];
            var r := DecodeShardRequest(c, EncodeShardRequest(c, shardId, items), 0);
            r.Some? && r.value.items == [Some(x)] && r.value.items != items
  {
    var items := [None, Some(x)];
    var s := EncodeShardRequest(c, shardId, items);
    IsAtConcat([], s, []);
    assert [] + s + [] == s;
    ShardRequestRoundTrip(c, s, 0, shardId, items);
    assert Compact(items) == [] + Compact(items[1..]);
    assert items[1..][1..] == [];
    assert Compact(items[1..]) == [Some(x)] + Compact(items[1..][1..]);
  }

  /**
   * The request object: the target index, the shard id and the ordered item slots. The index and
   * the list are null (None) after the no-argument constructor until readFrom fills the list.
   */
  class IngestIndexShardRequest<T> {
    var index: Option<string>
    var shardId: Int32
    var items: Option<seq<Option<T>>>

    /** The no-argument constructor, the target of readFrom: every field keeps its Java default. */
    constructor Empty()
      ensures index == None && shardId == 0 && items == None
    {
      index := None;
      shardId := 0;
      items := None;
    }

    constructor (index: Option<string>, shardId: Int32, items: Option<seq<Option<T>>>)
      ensures this.index == index && ShardId() == shardId && Items() == items
    {
      this.index := index;
      this.shardId := shardId;
      this.items := items;
    }

    function ShardId(): Int32
      reads this
    {
      shardId
    }

    function Items(): Option<seq<Option<T>>>
      reads this
    {
      items
    }

    /**
     * writeTo after the inherited fields. Without a list (the no-argument constructor) the shard
     * id is written and then taking the list's size throws a NullPointerException.
     */
    method WriteTo(out: StreamOutput, c: ItemCodec<T>) returns (outcome: Outcome)
      requires items.Some? ==> FitsInt(items.value)
      modifies out
      ensures items.None? ==> outcome == Threw(NullPointer) && out.bytes == old(out.bytes) + EncodeVInt(shardId)
      ensures items.Some? ==> outcome == Returned && out.bytes == old(out.bytes) + EncodeShardRequest(c, shardId, items.value)
    {
      ghost var start := out.bytes;
      out.WriteVInt(shardId);
      if items.None? {
        return Threw(NullPointer);
      }
      out.WriteVInt(|items.value|);
      AppendAssoc(start, EncodeVInt(shardId), EncodeVInt(|items.value|));
      WriteSlots(out, c, items.value);
      AppendAssoc(start, EncodeVInt(shardId) + EncodeVInt(|items.value|), EncodeSlots(c, items.value));
      outcome := Returned;
    }

    /**
     * readFrom after the inherited fields: the shard id, then a fresh list holding the present
     * items read. `ok` is false where the Java code throws; the fields then keep what was
     * assigned before: the shard id once it is read, and the fresh list with the items appended
     * before the failing slot once the count is read.
     */
    method ReadFrom(input: StreamInput, c: ItemCodec<T>) returns (ok: bool)
      requires input.Valid()
      modifies this, input
      ensures input.Valid() && index == old(index)
      ensures match DecodeShardRequest(c, input.data, old(input.pos))
              case None => !ok
              case Some(d) => ok && shardId == d.shardId && items == Some(d.items) && input.pos == d.end
      ensures match DecodeVInt(input.data, old(input.pos))
              case Failed => shardId == old(shardId) && items == old(items)
              case Decoded(sid, p1) =>
                shardId == sid &&
                match DecodeVInt(input.data, p1)
                case Failed => items == old(items)
                case Decoded(size, p2) => items == Some(SlotsRead(c, input.data, p2, if size < 0 then 0 else size))
    {
      var sid := input.ReadVInt();
      if sid.None? {
        return false;
      }
      shardId := sid.value;
      var size := input.ReadVInt();
      if size.None? {
        return false;
      }
      var count: nat := if size.value < 0 then 0 else size.value;
      items := Some([]);
      var read, appended := ReadSlots(input, c, count);
      items := Some(appended);
      ok := read;
    }
  }

}
