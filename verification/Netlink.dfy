/**
 Netlink messages and route attributes as sequences of bytes: both are headers that begin with
 their own length, followed by data and padded to four bytes.  The message format is that of
 section 2.2 of RFC 3549, the route messages those of section 3.1.1; numbers are in the byte
 order of a little-endian host.
 */
module Netlink {
  import opened Bytes

  const RTM_NEWROUTE: nat := 24
  const NLMSG_DONE: nat := 3
  const RTA_DST: nat := 1
  const RTA_GATEWAY: nat := 5
  const RTMSG_LEN: nat := 12     // sizeof(struct rtmsg)
  const WORD: nat := 0x1_0000_0000

  datatype Kind = Message | Attribute

  // sizeof(struct nlmsghdr) and sizeof(struct rtattr).
  function HeaderLen(k: Kind): nat {
    if k.Message? then 16 else 4
  }

  function U16(a: int, b: int): int {
    a + 0x100 * b
  }

  // nlmsg_len has 32 bits, rta_len 16.
  function LenField(k: Kind, r: seq<byte>): nat
    requires |r| >= HeaderLen(k)
  {
    if k.Message? then U16(r[0], r[1]) + 0x1_0000 * U16(r[2], r[3]) else U16(r[0], r[1])
  }

  // nlmsg_type and rta_type both have 16 bits.
  function TypeField(k: Kind, r: seq<byte>): nat
    requires |r| >= HeaderLen(k)
  {
    if k.Message? then U16(r[4], r[5]) else U16(r[2], r[3])
  }

  // NLMSG_ALIGN and RTA_ALIGN, without their wrap-around at 32 bits.
  function Align(n: nat): nat {
    (n + 3) / 4 * 4
  }

  // NLMSG_OK and RTA_OK when r is what remains.
  predicate Ok(k: Kind, r: seq<byte>) {
    |r| >= HeaderLen(k) && HeaderLen(k) <= LenField(k, r) <= |r|
  }

  // One message or attribute: its header, its data, and the padding that follows it.
  datatype Item = Item(header: seq<byte>, data: seq<byte>, pad: seq<byte>) {
    function Flat(): seq<byte> { header + data + pad }

    ghost predicate Fits(k: Kind) {
      && |header| == HeaderLen(k) && LenField(k, header) == |header| + |data|
      && |pad| <= Align(|header| + |data|) - |header| - |data|
    }

    ghost predicate Padded() {
      |pad| == Align(|header| + |data|) - |header| - |data|
    }
  }

  // How far NLMSG_NEXT and RTA_NEXT advance; the last step may pass the end.
  function Stride(k: Kind, r: seq<byte>): (n: nat)
    requires Ok(k, r)
    ensures HeaderLen(k) <= n <= |r|
  {
    Min(Align(LenField(k, r)), |r|)
  }

  function First(k: Kind, r: seq<byte>): Item
    requires Ok(k, r)
  {
    Item(r[..HeaderLen(k)], r[HeaderLen(k)..LenField(k, r)], r[LenField(k, r)..Stride(k, r)])
  }

  // What a walk visits, and what it leaves.
  function Walk(k: Kind, r: seq<byte>): seq<Item>
    decreases |r|
  {
    if Ok(k, r) then [First(k, r)] + Walk(k, r[Stride(k, r)..]) else []
  }

  function Rest(k: Kind, r: seq<byte>): seq<byte>
    decreases |r|
  {
    if Ok(k, r) then Rest(k, r[Stride(k, r)..]) else r
  }

  /* ----- the encoder, and that it and the walk undo each other ----- */

  function Encode(items: seq<Item>): seq<byte> {
    if items == [] then [] else items[0].Flat() + Encode(items[1..])
  }

  // Items with consistent lengths, each padded unless it is the very end of the buffer, and a
  // rest in which no further item is to be seen.
  ghost predicate WellFormed(k: Kind, items: seq<Item>, rest: seq<byte>) {
    if items == [] then !Ok(k, rest)
    else
      && items[0].Fits(k)
      && (items[1..] != [] || rest != [] ==> items[0].Padded())
      && WellFormed(k, items[1..], rest)
  }

  // The fields of a header do not depend on what follows it.
  lemma HeaderAlone(k: Kind, r: seq<byte>)
    requires |r| >= HeaderLen(k)
    ensures LenField(k, r[..HeaderLen(k)]) == LenField(k, r)
  {
  }

  lemma AlignUp(n: nat)
    ensures n <= Align(n) < n + 4
  {
  }

  lemma ThreeParts(r: seq<byte>, a: nat, b: nat, c: nat)
    requires a <= b <= c <= |r|
    ensures r[..a] + r[a..b] + r[b..c] == r[..c]
  {
  }

  lemma FirstFits(k: Kind, r: seq<byte>)
    requires Ok(k, r)
    ensures First(k, r).Fits(k) && (Stride(k, r) < |r| ==> First(k, r).Padded())
    ensures First(k, r).Flat() == r[..Stride(k, r)]
  {
    hide LenField, Align;
    HeaderAlone(k, r);
    AlignUp(LenField(k, r));
    ThreeParts(r, HeaderLen(k), LenField(k, r), Stride(k, r));
  }

  // Over any bytes whatever, encoding what a walk visited, and appending what it left, gives the
  // bytes back ...
  lemma {:induction false} EncodeUndoesWalk(k: Kind, r: seq<byte>)
    ensures Encode(Walk(k, r)) + Rest(k, r) == r
    decreases |r|
  {
    hide First, Stride, Ok, Item.Fits, Item.Flat, Item.Padded;
    if Ok(k, r) {
      var n := Stride(k, r);
      FirstFits(k, r);
      EncodeUndoesWalk(k, r[n..]);
      EncodeCons(First(k, r), Walk(k, r[n..]));
      Rejoin(r, n, Encode(Walk(k, r[n..])), Rest(k, r[n..]));
    } else {
      assert Encode([]) + r == r;
    }
  }

  lemma EncodeCons(m: Item, items: seq<Item>)
    ensures Encode([m] + items) == m.Flat() + Encode(items)
  {
    assert ([m] + items)[1..] == items;
  }

  lemma Rejoin(r: seq<byte>, n: nat, a: seq<byte>, b: seq<byte>)
    requires n <= |r| && a + b == r[n..]
    ensures (r[..n] + a) + b == r
  {
    assert (r[..n] + a) + b == r[..n] + (a + b);
  }

  // ... and what it visited is well formed.
  lemma {:induction false} WalkIsWellFormed(k: Kind, r: seq<byte>)
    ensures WellFormed(k, Walk(k, r), Rest(k, r))
    decreases |r|
  {
    hide First, Stride, Ok, Item.Fits, Item.Flat, Item.Padded;
    if Ok(k, r) {
      var n := Stride(k, r);
      FirstFits(k, r);
      WalkIsWellFormed(k, r[n..]);
      assert ([First(k, r)] + Walk(k, r[n..]))[1..] == Walk(k, r[n..]);
      if n == |r| {
        EmptyWalk(k, r[n..]);
      }
    }
  }

  lemma EmptyWalk(k: Kind, r: seq<byte>)
    requires r == []
    ensures Walk(k, r) == [] && Rest(k, r) == []
  {
  }

  lemma Parts(h: seq<byte>, d: seq<byte>, p: seq<byte>, tail: seq<byte>)
    ensures var r := h + d + p + tail;
            && r[..|h|] == h && r[|h|..|h| + |d|] == d
            && r[|h| + |d|..|h| + |d| + |p|] == p && r[|h| + |d| + |p|..] == tail
  {
  }

  lemma WalkStep(k: Kind, item: Item, tail: seq<byte>)
    requires item.Fits(k) && (tail != [] ==> item.Padded())
    ensures var r := item.Flat() + tail;
            Ok(k, r) && First(k, r) == item && r[Stride(k, r)..] == tail
  {
    hide LenField, Align;
    var r := item.Flat() + tail;
    Parts(item.header, item.data, item.pad, tail);
    HeaderAlone(k, r);
    AlignUp(LenField(k, r));
  }

  // Over an encoded list the walk visits exactly its items, in order, and leaves exactly the rest.
  lemma {:induction false} WalkUndoesEncode(k: Kind, items: seq<Item>, rest: seq<byte>)
    requires WellFormed(k, items, rest)
    ensures Walk(k, Encode(items) + rest) == items && Rest(k, Encode(items) + rest) == rest
    decreases |items|
  {
    if items == [] {
      assert Encode(items) + rest == rest;
    } else {
      var tail := Encode(items[1..]) + rest;
      hide First, Stride, Item.Fits, Item.Flat, Item.Padded;
      assert Encode(items) + rest == items[0].Flat() + tail;
      WalkStep(k, items[0], tail);
      WalkUndoesEncode(k, items[1..], rest);
    }
  }

  /* ----- what is reported for a route message ----- */

  // dst or gateway: never written, written with the address in an attribute, or written with
  // whatever lies beyond an attribute too short to hold an address.
  datatype Address = Unset | Set(bytes: seq<byte>) | Stray

  datatype Route = Route(dst: Address, gateway: Address)

  function AddressIn(a: Item): Address {
    if |a.data| >= 4 then Set(a.data[..4]) else Stray
  }

  predicate HasType(k: Kind, a: Item, typ: nat) {
    |a.header| >= HeaderLen(k) && TypeField(k, a.header) == typ
  }

  // The last attribute of the type wins.
  function LastOf(attrs: seq<Item>, typ: nat): Address {
    if attrs == [] then Unset
    else
      var a := attrs[|attrs| - 1];
      if HasType(Attribute, a, typ) then AddressIn(a) else LastOf(attrs[..|attrs| - 1], typ)
  }

  // RTM_PAYLOAD: the length after the header and struct rtmsg, computed with 32 unsigned bits
  // and stored in an int.
  function Payload(len: nat): int {
    var u := (len - Align(HeaderLen(Message) + RTMSG_LEN)) % WORD;
    if u >= WORD / 2 then u - WORD else u
  }

  lemma PayloadIsSigned(len: nat)
    requires len < WORD / 2
    ensures Payload(len) == len - 28
  {
  }

  // The attributes from which the code reads an address, four bytes of it whatever their length.
  predicate HoldsAddress(a: Item) {
    HasType(Attribute, a, RTA_DST) || HasType(Attribute, a, RTA_GATEWAY)
  }

  ghost predicate SomeShort(attrs: seq<Item>) {
    exists a :: a in attrs && HoldsAddress(a) && |a.data| < 4
  }

  // An address read from one of the attributes, which begin at offset start, goes beyond `size`.
  ghost predicate SomeBeyond(attrs: seq<Item>, start: nat, size: nat) {
    exists i :: 0 <= i < |attrs| && HoldsAddress(attrs[i]) && start + |Encode(attrs[..i])| + 8 > size
  }

  // The attributes of a message: none if it is too short for a struct rtmsg.
  function Attributes(m: Item): seq<Item> {
    Walk(Attribute, if |m.data| >= RTMSG_LEN then m.data[RTMSG_LEN..] else [])
  }

  // What handle_route_message prints for a message: at most one route.
  function Report(m: Item): seq<Route> {
    if HasType(Message, m, RTM_NEWROUTE)
    then [Route(LastOf(Attributes(m), RTA_DST), LastOf(Attributes(m), RTA_GATEWAY))]
    else []
  }

  function ReportAll(msgs: seq<Item>): seq<Route> {
    if msgs == [] then [] else ReportAll(msgs[..|msgs| - 1]) + Report(msgs[|msgs| - 1])
  }

  function BeforeDone(msgs: seq<Item>): seq<Item> {
    if msgs == [] || HasType(Message, msgs[0], NLMSG_DONE) then [] else [msgs[0]] + BeforeDone(msgs[1..])
  }

  // Reporting the message reads beyond one of its attributes; or, with the message at offset `at`,
  // beyond the array of the given size.
  ghost predicate Overreads(m: Item) {
    HasType(Message, m, RTM_NEWROUTE) && SomeShort(Attributes(m))
  }

  ghost predicate LeavesArray(m: Item, at: nat, size: nat) {
    HasType(Message, m, RTM_NEWROUTE) && SomeBeyond(Attributes(m), at + 28, size)
  }

  ghost predicate SomeOverreads(msgs: seq<Item>) {
    exists m :: m in msgs && Overreads(m)
  }

  ghost predicate SomeLeaves(msgs: seq<Item>, size: nat) {
    exists j :: 0 <= j < |msgs| && LeavesArray(msgs[j], |Encode(msgs[..j])|, size)
  }
}
