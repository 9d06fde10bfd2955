/**
 The wire format of 18/my_route.c byte by byte, in the numbers of RFC 3549 and of a little-endian
 host: what the encoder writes, and what the walks make of given bytes.
 */
module NetlinkBytes {
  import opened Bytes
  import opened Netlink
  import opened NetlinkEncoder
  import NetlinkWalk

  lemma Divide(n: nat, low: nat, high: nat)
    ensures low < 256 && n == low + 256 * high ==> n % 256 == low && n / 256 == high
    ensures low < 65536 && n == low + 65536 * high ==> n % 65536 == low && n / 65536 == high
    ensures low < 16777216 && n == low + 16777216 * high ==> n / 16777216 == high
  {
  }

  // The least significant byte first.
  lemma Le32Bytes(n: nat)
    requires n < WORD
    ensures var b: seq<int> := Le32(n); b == [n % 256, n / 256 % 256, n / 65536 % 256, n / 16777216]
  {
    var a, b, high := n % 256, n / 256 % 256, n / 256 / 256;
    assert n == a + 256 * b + 65536 * high;
    Divide(n, a + 256 * b, high);
    Divide(a + 256 * b, a, b);
    assert high == high % 256 + 256 * (high / 256);
    Divide(n, a + 256 * b + 65536 * (high % 256), high / 256);
  }

  // nlmsg_len and nlmsg_type, and the rest of the header.
  lemma MsgBytes(m: Msg)
    requires m.Valid()
    ensures var len := 16 + |m.Body()|;
            var h: seq<int> := MsgItem(m).header;
            h == [len % 256, len / 256 % 256, len / 65536 % 256, len / 16777216, m.typ % 256, m.typ / 256] + m.control
    ensures MsgItem(m).data == m.Body()
  {
    hide Align, Msg.Body, Le32, LenField, TypeField;
    Le32Bytes(16 + |m.Body()|);
  }

  // rta_len and rta_type, low byte first.
  lemma AttrBytes(a: Attr)
    requires a.Valid()
    ensures var len := 4 + |a.payload|;
            var h: seq<int> := AttrItem(a).header;
            h == [len % 256, len / 256, a.typ % 256, a.typ / 256]
    ensures AttrItem(a).data == a.payload
  {
    hide Align;
  }

  // The length that the first four bytes give.
  function Length(r: seq<byte>): nat
    requires |r| >= 4
  {
    r[0] as int + 256 * (r[1] as int) + 65536 * (r[2] as int) + 16777216 * (r[3] as int)
  }

  // A buffer that holds one message, with no room for another.
  predicate Single(r: seq<byte>) {
    |r| >= 16 && 16 <= Length(r) <= |r| < (Length(r) + 3) / 4 * 4 + 16
  }

  lemma SingleWalk(r: seq<byte>) returns (m: Item)
    requires Single(r)
    ensures Walk(Message, r) == [m] && m.header == r[..16] && m.data == r[16..Length(r)]
  {
    assert LenField(Message, r) == Length(r);
    m := First(Message, r);
    assert Walk(Message, r[Stride(Message, r)..]) == [];
  }

  // What is printed for one message.
  lemma OneReported(m: Item)
    ensures ReportAll(BeforeDone([m])) == if HasType(Message, m, NLMSG_DONE) then [] else Report(m)
  {
    hide HasType, Report;
    assert [m][1..] == [] && [m][..0] == [];
    assert BeforeDone([]) == [] && ReportAll([]) == [];
    assert HasType(Message, m, NLMSG_DONE) || BeforeDone([m]) == [m];
  }

  // A route is printed if and only if bytes 4 and 5 say so.
  lemma SingleReported(r: seq<byte>)
    requires Single(r)
    ensures |ReportAll(BeforeDone(Walk(Message, r)))| == if r[4] == 24 && r[5] == 0 then 1 else 0
  {
    hide Walk, Attributes, LastOf, ReportAll, BeforeDone, HasType;
    var m := SingleWalk(r);
    OneReported(m);
    TypeBytes(r, m);
  }

  lemma TypeBytes(r: seq<byte>, m: Item)
    requires |r| >= 16 && m.header == r[..16]
    ensures HasType(Message, m, NLMSG_DONE) <==> r[4] == 3 && r[5] == 0
    ensures HasType(Message, m, RTM_NEWROUTE) <==> r[4] == 24 && r[5] == 0
  {
  }

  // An attribute of four bytes, written out.
  function Attribute4(typ: byte, address: seq<byte>): Item {
    Item([8, 0, typ, 0], address, [])
  }

  lemma TwoAttributes(dst: seq<byte>, gateway: seq<byte>)
    requires |dst| == |gateway| == 4
    ensures Walk(Attribute, [8, 0, 1, 0] + dst + [8, 0, 5, 0] + gateway)
         == [Attribute4(1, dst), Attribute4(5, gateway)]
  {
    hide Walk, Ok, First, Stride, Item.Fits, Item.Padded;
    var a, b := Attribute4(1, dst), Attribute4(5, gateway);
    Attribute4Fits(1, dst);
    Attribute4Fits(5, gateway);
    WalkItem(a, b.Flat());
    WalkItem(b, []);
    EmptyWalk(Attribute, []);
    assert b.Flat() + [] == b.Flat();
    assert a.Flat() + b.Flat() == [8, 0, 1, 0] + dst + [8, 0, 5, 0] + gateway;
  }

  lemma Attribute4Fits(typ: byte, address: seq<byte>)
    requires |address| == 4
    ensures Attribute4(typ, address).Fits(Attribute) && Attribute4(typ, address).Padded()
  {
  }

  lemma WalkItem(a: Item, tail: seq<byte>)
    requires a.Fits(Attribute) && a.Padded()
    ensures Walk(Attribute, a.Flat() + tail) == [a] + Walk(Attribute, tail)
  {
    hide First, Stride, Ok, Item.Fits, Item.Padded, Item.Flat;
    WalkStep(Attribute, a, tail);
  }

  lemma LastOfTwo(dst: seq<byte>, gateway: seq<byte>)
    requires |dst| == |gateway| == 4
    ensures LastOf([Attribute4(1, dst), Attribute4(5, gateway)], RTA_DST) == Set(dst)
    ensures LastOf([Attribute4(1, dst), Attribute4(5, gateway)], RTA_GATEWAY) == Set(gateway)
  {
    var a, b := Attribute4(1, dst), Attribute4(5, gateway);
    assert [a, b][..1] == [a];
    assert dst[..4] == dst && gateway[..4] == gateway;
  }

  // A route message with a destination and a gateway, written out, is printed with exactly these;
  // `control` and `rtm` may be any bytes.
  lemma RouteBytes(control: seq<byte>, rtm: seq<byte>, dst: seq<byte>, gateway: seq<byte>)
    requires |control| == 10 && |rtm| == 12 && |dst| == |gateway| == 4
    ensures var r := [44, 0, 0, 0, 24, 0] + control + rtm + [8, 0, 1, 0] + dst + [8, 0, 5, 0] + gateway;
            ReportAll(BeforeDone(Walk(Message, r))) == [Route(Set(dst), Set(gateway))]
  {
    hide Walk, LastOf, ReportAll, BeforeDone, HasType, Attribute4;
    var attrs: seq<byte> := [8, 0, 1, 0] + dst + [8, 0, 5, 0] + gateway;
    var r: seq<byte> := [44, 0, 0, 0, 24, 0] + control + rtm + [8, 0, 1, 0] + dst + [8, 0, 5, 0] + gateway;
    assert r == [44, 0, 0, 0, 24, 0] + control + rtm + attrs && Length(r) == 44;
    var m := SingleWalk(r);
    OneReported(m);
    TypeBytes(r, m);
    assert m.data[12..] == attrs;
    TwoAttributes(dst, gateway);
    LastOfTwo(dst, gateway);
  }

  // NLMSG_DONE, written out, ends the walk whatever follows it.
  lemma DoneBytes(control: seq<byte>, rest: seq<byte>)
    requires |control| == 10
    ensures BeforeDone(Walk(Message, [16, 0, 0, 0, 3, 0] + control + rest)) == []
  {
    hide Walk, First, Stride, HasType;
    var r: seq<byte> := [16, 0, 0, 0, 3, 0] + control + rest;
    assert Length(r) == 16;
    var m := FirstVisited(r);
    TypeBytes(r, m);
  }

  lemma FirstVisited(r: seq<byte>) returns (m: Item)
    requires |r| >= 16 && 16 <= Length(r) <= |r|
    ensures Walk(Message, r) != [] && Walk(Message, r)[0] == m && m.header == r[..16]
  {
    hide Stride;
    assert LenField(Message, r) == Length(r);
    m := First(Message, r);
  }

  // The loops themselves, on such a buffer.
  method PrintSingle(buffer: array<byte>, n: nat) returns (printed: seq<Route>)
    requires n <= buffer.Length <= NetlinkWalk.BUFFER && Single(buffer[..n])
    ensures |printed| == if buffer[4] == 24 && buffer[5] == 0 then 1 else 0
  {
    SingleReported(buffer[..n]);
    var overread, outside;
    printed, overread, outside := NetlinkWalk.WalkMessages(buffer, n);
  }
}
