/**
 When the address reads of 18/my_route.c stay within their attributes and within the array.  The
 loops check only that an attribute's own length fits, and then read four bytes of its data.
 */
module NetlinkBounds {
  import opened Bytes
  import opened Netlink
  import opened NetlinkEncoder
  import NetlinkWalk

  // Every item that is visited begins at a multiple of four and lies within the bytes walked over.
  lemma {:induction false} ItemInside(k: Kind, r: seq<byte>, i: nat)
    requires i < |Walk(k, r)|
    ensures |Encode(Walk(k, r)[..i])| % 4 == 0
    ensures |Encode(Walk(k, r)[..i])| + HeaderLen(k) + |Walk(k, r)[i].data| <= |r|
    decreases |r|
  {
    hide Ok, First, Stride, Encode, HeaderLen, Item.Flat;
    FirstInside(k, r);
    var first, tail := First(k, r), r[Stride(k, r)..];
    if i == 0 {
      NoItems();
    } else {
      ItemInside(k, tail, i - 1);
      assert Walk(k, r)[..i] == [first] + Walk(k, tail)[..i - 1];
      EncodeCons(first, Walk(k, tail)[..i - 1]);
    }
  }

  lemma NoItems()
    ensures Encode([]) == []
  {
  }

  lemma FirstInside(k: Kind, r: seq<byte>)
    requires Walk(k, r) != []
    ensures Ok(k, r) && HeaderLen(k) + |First(k, r).data| <= |r|
    ensures |First(k, r).Flat()| == Stride(k, r)
    ensures Walk(k, r[Stride(k, r)..]) != [] ==> Stride(k, r) % 4 == 0
  {
    hide Item.Fits, LenField, Item.Flat, HeaderLen, Align;
    FirstFits(k, r);
    FitsInside(k, r);
    AlignedUp(LenField(k, r));
    if Walk(k, r[Stride(k, r)..]) != [] {
      NothingToWalk(k, r[Stride(k, r)..]);
    }
  }

  lemma FitsInside(k: Kind, r: seq<byte>)
    requires Ok(k, r)
    ensures HeaderLen(k) + |First(k, r).data| <= |r|
  {
  }

  lemma AlignedUp(n: nat)
    ensures Align(n) % 4 == 0
  {
  }

  lemma NothingToWalk(k: Kind, r: seq<byte>)
    requires Walk(k, r) != []
    ensures r != []
  {
  }

  lemma {:induction false} DoneIsPrefix(msgs: seq<Item>)
    ensures BeforeDone(msgs) <= msgs
  {
    if msgs != [] {
      DoneIsPrefix(msgs[1..]);
    }
  }

  ghost function Visited(r: seq<byte>): seq<Item> {
    BeforeDone(Walk(Message, r))
  }

  // Where the i-th attribute of the j-th message begins.
  ghost function AttributeAt(msgs: seq<Item>, j: nat, i: nat): nat
    requires j < |msgs| && i < |Attributes(msgs[j])|
  {
    |Encode(msgs[..j])| + 28 + |Encode(Attributes(msgs[j])[..i])|
  }

  lemma AttributeInside(r: seq<byte>, j: nat, i: nat)
    requires j < |Visited(r)| && i < |Attributes(Visited(r)[j])|
    ensures AttributeAt(Visited(r), j, i) % 4 == 0 && AttributeAt(Visited(r), j, i) + 4 <= |r|
  {
    hide Walk, Encode, BeforeDone;
    DoneIsPrefix(Walk(Message, r));
    ItemInside(Message, r, j);
    assert Visited(r)[..j] == Walk(Message, r)[..j];
    var data := Visited(r)[j].data;
    ItemInside(Attribute, if |data| >= RTMSG_LEN then data[RTMSG_LEN..] else [], i);
  }

  // An array that was not filled to its last byte is never left.
  lemma StaysInside(r: seq<byte>, size: nat)
    requires size % 4 == 0 && |r| <= size && (|r| < size || |r| < 32)
    ensures !SomeLeaves(Visited(r), size)
  {
    hide Attributes, Visited, Encode;
    if j :| 0 <= j < |Visited(r)| && LeavesArray(Visited(r)[j], |Encode(Visited(r)[..j])|, size) {
      var attrs := Attributes(Visited(r)[j]);
      var i :| 0 <= i < |attrs| && |Encode(Visited(r)[..j])| + 28 + |Encode(attrs[..i])| + 8 > size;
      AttributeInside(r, j, i);
    }
  }

  /* ----- an array filled to its last byte can be left ----- */

  function Zeros(n: nat): (s: seq<byte>)
    ensures |s| == n
  {
    seq(n, _ => 0)
  }

  // A new route of `size` bytes that ends with an empty RTA_DST.
  function EndsShort(size: nat): (m: Msg)
    requires 32 <= size < 0x1_0000 && size % 4 == 0
    ensures forall a | a in m.attrs :: a.Valid()
  {
    Msg(RTM_NEWROUTE, Zeros(10), Zeros(RTMSG_LEN),
        (if size == 32 then [] else [Attr(0, Zeros(size - 36))]) + [Attr(RTA_DST, [])])
  }

  lemma ItemOf(a: Attr)
    requires a.Valid()
    ensures |AttrItem(a).Flat()| == Align(4 + |a.payload|)
    ensures HoldsAddress(AttrItem(a)) <==> a.typ == RTA_DST || a.typ == RTA_GATEWAY
  {
    hide Align, LenField, TypeField;
  }

  // How long one or two attributes are together.
  lemma OneOrTwo(a: Attr, b: Attr)
    requires a.Valid() && b.Valid()
    ensures AttrItems([b]) == [AttrItem(b)] && AttrItems([a, b]) == [AttrItem(a), AttrItem(b)]
    ensures |Encode([AttrItem(b)])| == Align(4 + |b.payload|)
    ensures |Encode([AttrItem(a), AttrItem(b)])| == Align(4 + |a.payload|) + Align(4 + |b.payload|)
  {
    ItemOf(a);
    ItemOf(b);
    hide AttrItem, Item.Flat, Align;
    EncodeCons(AttrItem(b), []);
    EncodeCons(AttrItem(a), [AttrItem(b)]);
    assert [AttrItem(b)] + [] == [AttrItem(b)] && [AttrItem(a)] + [AttrItem(b)] == [AttrItem(a), AttrItem(b)];
  }

  lemma EndsShortAttrs(size: nat)
    requires 32 <= size < 0x1_0000 && size % 4 == 0
    ensures size == 32 ==> EndsShort(size).attrs == [Attr(RTA_DST, [])]
    ensures size > 32 ==> EndsShort(size).attrs == [Attr(0, Zeros(size - 36)), Attr(RTA_DST, [])]
  {
  }

  lemma Aligned(n: nat)
    requires n % 4 == 0
    ensures Align(n) == n
  {
  }

  // What precedes the last attribute, and the attribute itself.
  lemma EndsShortParts(size: nat)
    requires 32 <= size < 0x1_0000 && size % 4 == 0
    ensures var items := AttrItems(EndsShort(size).attrs);
            && |items| > 0 && HoldsAddress(items[|items| - 1])
            && |Encode(items[..|items| - 1])| == size - 32 && |Encode(items)| == size - 28
  {
    hide AttrItem, AttrItems, HoldsAddress, Item.Flat, Encode, EndsShort, Align;
    EndsShortAttrs(size);
    var items := AttrItems(EndsShort(size).attrs);
    var last := Attr(RTA_DST, []);
    var filler := if size == 32 then last else Attr(0, Zeros(size - 36));
    ItemOf(last);
    NoItems();
    Aligned(4);
    Aligned(size - 32);
    OneOrTwo(filler, last);
    OneOrTwo(last, filler);
    assert items[..|items| - 1] == if size == 32 then [] else [AttrItem(filler)];
  }

  // A buffer that holds one message of the kind above.
  lemma OneMessage(m: Msg)
    requires m.Valid() && m.typ == RTM_NEWROUTE
    ensures Visited(Encode(MsgItems([m]))) == [MsgItem(m)]
    ensures Encode(MsgItems([m])) == MsgItem(m).Flat()
    ensures HasType(Message, MsgItem(m), RTM_NEWROUTE)
  {
    RoundTrip([m]);
    hide Msg.Valid, Item.Flat, Walk;
    assert [m][1..] == [] && MsgItems([m]) == [MsgItem(m)];
    assert [MsgItem(m)][1..] == [];
    assert BeforeDone([MsgItem(m)]) == [MsgItem(m)] + [];
    assert Encode([MsgItem(m)]) == MsgItem(m).Flat() + [];
  }

  lemma EndsShortLength(size: nat)
    requires 32 <= size < 0x1_0000 && size % 4 == 0
    ensures EndsShort(size).Valid() && |MsgItem(EndsShort(size)).Flat()| == size
  {
    hide AttrItems, Encode, HoldsAddress, MsgItem, Item.Flat, Align;
    EndsShortParts(size);
    MsgLength(EndsShort(size));
    Aligned(size);
  }

  lemma MsgLength(m: Msg)
    requires m.Valid()
    ensures |MsgItem(m).Flat()| == Align(16 + |m.Body()|)
  {
    hide LenField, TypeField, Align, Msg.Body;
  }

  lemma FullMessage(size: nat) returns (r: seq<byte>)
    requires 32 <= size < 0x1_0000 && size % 4 == 0
    ensures |r| == size && SomeLeaves(Visited(r), size)
  {
    var m := EndsShort(size);
    EndsShortParts(size);
    r := Encode(MsgItems([m]));
    EndsShortLength(size);
    OneMessage(m);
    AttributesOfMsg(m);
    NoItems();
    hide AttrItems, EndsShort, Attributes, Visited, Encode, MsgItem, MsgItems, HoldsAddress, Msg.Valid, HasType;
    var visited := Visited(r);
    assert visited[..0] == [];
    var attrs := AttrItems(m.attrs);
    assert HoldsAddress(attrs[|attrs| - 1]) && 28 + |Encode(attrs[..|attrs| - 1])| + 8 > size;
    assert LeavesArray(visited[0], |Encode(visited[..0])|, size);
  }

  // So whatever n bytes are received into it, the code reads addresses only from inside an array
  // of `size` bytes if and only if they do not fill it (or are too few for any attribute).
  lemma InsideArray(n: nat, size: nat)
    requires n <= size < 0x1_0000 && size % 4 == 0
    ensures (forall r | |r| == n :: !SomeLeaves(Visited(r), size)) <==> n < size || n < 32
  {
    if n < size || n < 32 {
      forall r | |r| == n ensures !SomeLeaves(Visited(r), size) {
        StaysInside(r, size);
      }
    } else {
      var r := FullMessage(size);
    }
  }

  /* ----- attributes too short for an address ----- */

  ghost predicate ShortAddress(a: Attr) {
    (a.typ == RTA_DST || a.typ == RTA_GATEWAY) && |a.payload| < 4
  }

  lemma ValidAttrs(m: Msg)
    requires m.Valid()
    ensures forall a | a in m.attrs :: a.Valid()
  {
  }

  lemma MsgType(m: Msg)
    requires m.Valid()
    ensures HasType(Message, MsgItem(m), RTM_NEWROUTE) <==> m.typ == RTM_NEWROUTE
  {
    hide LenField, TypeField, AttrItems, Encode, Align;
  }

  lemma ShortItems(attrs: seq<Attr>)
    requires forall a | a in attrs :: a.Valid()
    ensures SomeShort(AttrItems(attrs)) <==> exists a :: a in attrs && ShortAddress(a)
  {
    hide AttrItem, AttrItems, HoldsAddress;
    var items := AttrItems(attrs);
    forall i | 0 <= i < |attrs| ensures HoldsAddress(items[i]) && |items[i].data| < 4 <==> ShortAddress(attrs[i]) {
      ItemOf(attrs[i]);
    }
    if i :| 0 <= i < |attrs| && ShortAddress(attrs[i]) {
      assert items[i] in items;
    }
  }

  // A message is read beyond one of its attributes exactly when it is a new route with an address
  // attribute of less than four bytes.
  lemma OverreadsWhenShort(m: Msg)
    requires m.Valid()
    ensures Overreads(MsgItem(m)) <==> m.typ == RTM_NEWROUTE && exists a :: a in m.attrs && ShortAddress(a)
  {
    hide Msg.Valid, MsgItem, AttrItems, Attributes, HasType, SomeShort, ShortAddress;
    ValidAttrs(m);
    AttributesOfMsg(m);
    MsgType(m);
    ShortItems(m.attrs);
  }

  // The printed route need not show it: a later attribute of the same type hides the stray read.
  lemma OverreadHidden(m: Msg, short: Attr, full: Attr)
    requires m.Valid() && m.typ == RTM_NEWROUTE && m.attrs == [short, full]
    requires short.typ == full.typ == RTA_DST && |short.payload| < 4 <= |full.payload|
    ensures Overreads(MsgItem(m)) && Report(MsgItem(m)) == [Route(Set(full.payload[..4]), Unset)]
  {
    hide Msg.Valid, MsgItem, Overreads, Report, LastAddress;
    OverreadsWhenShort(m);
    assert short in m.attrs && ShortAddress(short);
    ReportOfMsg(m);
    LastOfTwo(short, full);
  }

  lemma LastOfTwo(short: Attr, full: Attr)
    requires short.typ == full.typ == RTA_DST && |full.payload| >= 4
    ensures LastAddress([short, full], RTA_DST) == Set(full.payload[..4])
    ensures LastAddress([short, full], RTA_GATEWAY) == Unset
  {
    assert [short, full][..1] == [short] && [short][..0] == [];
    assert LastAddress([short], RTA_GATEWAY) == LastAddress([], RTA_GATEWAY) == Unset;
  }
}
