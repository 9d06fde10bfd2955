/**
 Route messages built from their parts, as the kernel builds them, and what the walk of
 18/my_route.c makes of a buffer of them.
 */
module NetlinkEncoder {
  import opened Bytes
  import opened Netlink
  import NetlinkWalk

  datatype Attr = Attr(typ: nat, payload: seq<byte>) {
    predicate Valid() { typ < 0x1_0000 && 4 + |payload| < 0x1_0000 }
  }

  // `control` is the rest of the message header: flags, sequence number and port.
  datatype Msg = Msg(typ: nat, control: seq<byte>, rtm: seq<byte>, attrs: seq<Attr>) {
    ghost predicate Valid() {
      && typ < 0x1_0000 && |control| == 10 && |rtm| == RTMSG_LEN
      && (forall a | a in attrs :: a.Valid())
      && 16 + |Body()| < WORD
    }

    function Body(): seq<byte>
      requires forall a | a in attrs :: a.Valid()
    {
      rtm + Encode(AttrItems(attrs))
    }
  }

  function Le16(n: nat): (b: seq<byte>)
    requires n < 0x1_0000
    ensures |b| == 2 && U16(b[0], b[1]) == n
  {
    [n % 0x100, n / 0x100]
  }

  function Le32(n: nat): (b: seq<byte>)
    requires n < WORD
    ensures |b| == 4 && U16(b[0], b[1]) + 0x1_0000 * U16(b[2], b[3]) == n
  {
    Le16(n % 0x1_0000) + Le16(n / 0x1_0000)
  }

  function Padding(len: nat): (p: seq<byte>)
    ensures |p| == Align(len) - len
  {
    seq(Align(len) - len, _ => 0)
  }

  function AttrItem(a: Attr): (i: Item)
    requires a.Valid()
    ensures i.Fits(Attribute) && i.Padded() && i.data == a.payload
    ensures TypeField(Attribute, i.header) == a.typ
  {
    var len := 4 + |a.payload|;
    Item(Le16(len) + Le16(a.typ), a.payload, Padding(len))
  }

  function AttrItems(attrs: seq<Attr>): (items: seq<Item>)
    requires forall a | a in attrs :: a.Valid()
    ensures |items| == |attrs| && forall i | 0 <= i < |attrs| :: items[i] == AttrItem(attrs[i])
  {
    if attrs == [] then [] else [AttrItem(attrs[0])] + AttrItems(attrs[1..])
  }

  function MsgItem(m: Msg): (i: Item)
    requires m.Valid()
    ensures i.Fits(Message) && i.Padded() && i.data == m.Body()
    ensures TypeField(Message, i.header) == m.typ
  {
    var len := 16 + |m.Body()|;
    Item(Le32(len) + Le16(m.typ) + m.control, m.Body(), Padding(len))
  }

  function MsgItems(msgs: seq<Msg>): seq<Item>
    requires forall m | m in msgs :: m.Valid()
  {
    if msgs == [] then [] else [MsgItem(msgs[0])] + MsgItems(msgs[1..])
  }

  // The reference: what is to be reported, read off the parts.
  function LastAddress(attrs: seq<Attr>, typ: nat): Address {
    if attrs == [] then Unset
    else
      var a := attrs[|attrs| - 1];
      if a.typ == typ then (if |a.payload| >= 4 then Set(a.payload[..4]) else Stray)
      else LastAddress(attrs[..|attrs| - 1], typ)
  }

  function Expected(msgs: seq<Msg>): seq<Route> {
    if msgs == [] || msgs[0].typ == NLMSG_DONE then []
    else (if msgs[0].typ == RTM_NEWROUTE
          then [Route(LastAddress(msgs[0].attrs, RTA_DST), LastAddress(msgs[0].attrs, RTA_GATEWAY))] else [])
         + Expected(msgs[1..])
  }

  lemma {:induction false} AttrsWellFormed(attrs: seq<Attr>)
    requires forall a | a in attrs :: a.Valid()
    ensures WellFormed(Attribute, AttrItems(attrs), [])
  {
    if attrs != [] {
      assert AttrItems(attrs)[1..] == AttrItems(attrs[1..]);
      AttrsWellFormed(attrs[1..]);
    }
  }

  lemma {:induction false} MsgsWellFormed(msgs: seq<Msg>)
    requires forall m | m in msgs :: m.Valid()
    ensures WellFormed(Message, MsgItems(msgs), [])
  {
    hide Msg.Valid, Msg.Body, Item.Fits, Item.Padded, MsgItem;
    if msgs != [] {
      assert MsgItems(msgs)[1..] == MsgItems(msgs[1..]);
      MsgsWellFormed(msgs[1..]);
    }
  }

  lemma {:induction false} LastOfItems(attrs: seq<Attr>, typ: nat)
    requires forall a | a in attrs :: a.Valid()
    ensures LastOf(AttrItems(attrs), typ) == LastAddress(attrs, typ)
  {
    if attrs != [] {
      var n := |attrs| - 1;
      assert AttrItems(attrs)[..n] == AttrItems(attrs[..n]);
      LastOfItems(attrs[..n], typ);
    }
  }

  // A message made of attributes is walked into exactly those attributes, in order.
  lemma AttributesOfMsg(m: Msg)
    requires m.Valid()
    ensures Attributes(MsgItem(m)) == AttrItems(m.attrs)
  {
    AttrsWellFormed(m.attrs);
    WalkUndoesEncode(Attribute, AttrItems(m.attrs), []);
    assert Encode(AttrItems(m.attrs)) + [] == Encode(AttrItems(m.attrs));
    assert m.Body()[RTMSG_LEN..] == Encode(AttrItems(m.attrs));
  }

  lemma ReportOfMsg(m: Msg)
    requires m.Valid()
    ensures Report(MsgItem(m)) == if m.typ == RTM_NEWROUTE
      then [Route(LastAddress(m.attrs, RTA_DST), LastAddress(m.attrs, RTA_GATEWAY))] else []
  {
    AttributesOfMsg(m);
    LastOfItems(m.attrs, RTA_DST);
    LastOfItems(m.attrs, RTA_GATEWAY);
  }

  lemma {:induction false} ReportFromFront(m: Item, msgs: seq<Item>)
    ensures ReportAll([m] + msgs) == Report(m) + ReportAll(msgs)
    decreases |msgs|
  {
    hide Report;
    if msgs == [] {
      assert [m] + msgs == [m] && [m][..0] == [];
      assert ReportAll([]) == [];
    } else {
      var n := |msgs| - 1;
      assert ([m] + msgs)[..|msgs|] == [m] + msgs[..n];
      ReportFromFront(m, msgs[..n]);
    }
  }

  lemma {:induction false} ReportOfMsgs(msgs: seq<Msg>)
    requires forall m | m in msgs :: m.Valid()
    ensures ReportAll(BeforeDone(MsgItems(msgs))) == Expected(msgs)
  {
    if msgs != [] {
      var m, tail := msgs[0], MsgItems(msgs[1..]);
      assert m in msgs;
      assert ([MsgItem(m)] + tail)[1..] == tail;
      ReportOfMsg(m);
      ReportOfMsgs(msgs[1..]);
      hide Msg.Valid, MsgItem, Report, ReportAll;
      if m.typ != NLMSG_DONE {
        ReportFromFront(MsgItem(m), BeforeDone(tail));
      } else {
        Nothing();
      }
    } else {
      Nothing();
    }
  }

  lemma Nothing()
    ensures ReportAll([]) == []
  {
  }

  // The round trip: over a buffer of encoded route messages, the walk of query_route_table visits
  // exactly the messages before the first NLMSG_DONE, each with exactly its attributes, and the
  // last RTA_DST and RTA_GATEWAY of each new route are what is printed.
  lemma RoundTrip(msgs: seq<Msg>)
    requires forall m | m in msgs :: m.Valid()
    ensures Walk(Message, Encode(MsgItems(msgs))) == MsgItems(msgs)
    ensures ReportAll(BeforeDone(Walk(Message, Encode(MsgItems(msgs))))) == Expected(msgs)
  {
    MsgsWellFormed(msgs);
    WalkUndoesEncode(Message, MsgItems(msgs), []);
    assert Encode(MsgItems(msgs)) + [] == Encode(MsgItems(msgs));
    ReportOfMsgs(msgs);
  }

  // The program itself, on a buffer whose first n bytes are the encoded messages.
  method PrintRoutes(buffer: array<byte>, n: nat, ghost msgs: seq<Msg>) returns (printed: seq<Route>)
    requires buffer.Length <= NetlinkWalk.BUFFER && n <= buffer.Length
    requires forall m | m in msgs :: m.Valid()
    requires buffer[..n] == Encode(MsgItems(msgs))
    ensures printed == Expected(msgs)
  {
    RoundTrip(msgs);
    var overread, outside;
    printed, overread, outside := NetlinkWalk.WalkMessages(buffer, n);
  }
}
