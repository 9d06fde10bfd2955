/**
 The loops of 18/my_route.c over a received buffer: pointers are offsets, and the remaining
 lengths are signed, so that the last step may make them negative.
 */
module NetlinkWalk {
  import opened Bytes
  import opened Netlink

  const BUFFER: nat := 16384

  // len bytes at offset p.
  function At(buf: seq<byte>, p: nat, len: nat): (b: seq<byte>)
    requires p + len <= |buf|
    ensures |b| == len
  {
    buf[p..p + len]
  }

  // What remains when `rem` bytes are left at offset p; nothing once rem is negative.
  ghost function Remaining(buf: seq<byte>, p: nat, rem: int): seq<byte>
    requires rem >= 0 ==> p + rem <= |buf|
  {
    if rem >= 0 then At(buf, p, rem) else []
  }

  // NLMSG_OK and RTA_OK as the code evaluates them: the header is read only if it is there.
  predicate HeaderOk(k: Kind, buf: seq<byte>, p: nat, rem: int)
    requires rem >= 0 ==> p + rem <= |buf|
  {
    rem >= HeaderLen(k) &&
    var len := LenField(k, At(buf, p, HeaderLen(k)));
    len >= HeaderLen(k) && len <= rem
  }

  // Two slices in a row are one.
  lemma AtAt(buf: seq<byte>, p: nat, rem: nat, i: nat, len: nat)
    requires p + rem <= |buf| && i + len <= rem
    ensures At(buf, p, rem)[i..i + len] == At(buf, p + i, len)
  {
    var a, b := At(buf, p, rem)[i..i + len], At(buf, p + i, len);
    assert forall x | 0 <= x < len :: a[x] == At(buf, p, rem)[i + x] == b[x];
  }

  lemma HeaderOkMeansOk(k: Kind, buf: seq<byte>, p: nat, rem: int)
    requires rem >= 0 ==> p + rem <= |buf|
    ensures HeaderOk(k, buf, p, rem) <==> Ok(k, Remaining(buf, p, rem))
    ensures HeaderOk(k, buf, p, rem) ==>
              && rem >= HeaderLen(k) && Remaining(buf, p, rem) == At(buf, p, rem)
              && LenField(k, At(buf, p, HeaderLen(k))) == LenField(k, At(buf, p, rem)) > 0
  {
  }

  lemma Advance(buf: seq<byte>, p: nat, rem: nat, n: nat)
    requires p + rem <= |buf|
    ensures rem - n >= 0 ==> p + n + (rem - n) <= |buf|
    ensures At(buf, p, rem)[Min(n, rem)..] == Remaining(buf, p + n, rem - n)
  {
    if n <= rem {
      AtAt(buf, p, rem, n, rem - n);
      assert At(buf, p, rem)[n..] == At(buf, p, rem)[n..n + (rem - n)];
    }
  }

  // m is the message or attribute that begins at offset p.
  ghost predicate ItemAt(k: Kind, buf: seq<byte>, p: nat, m: Item) {
    && m.Fits(k) && p + HeaderLen(k) + |m.data| <= |buf|
    && m.header == At(buf, p, HeaderLen(k)) && m.data == At(buf, p + HeaderLen(k), |m.data|)
  }

  // NLMSG_NEXT and RTA_NEXT.  The pointer is at one item, in terms of the buffer; where the pointer
  // and the signed counter go next is where the walk goes.
  lemma ItemHere(k: Kind, buf: seq<byte>, p: nat, rem: int) returns (m: Item, later: seq<Item>)
    requires rem >= 0 ==> p + rem <= |buf|
    requires HeaderOk(k, buf, p, rem)
    ensures ItemAt(k, buf, p, m) && rem > 0
    ensures p + HeaderLen(k) <= |buf|
    ensures Walk(k, Remaining(buf, p, rem)) == [m] + later
    ensures rem - Align(LenField(k, At(buf, p, HeaderLen(k)))) >= 0
            ==> |m.Flat()| == Align(LenField(k, At(buf, p, HeaderLen(k))))
    ensures var n := Align(LenField(k, At(buf, p, HeaderLen(k))));
            n > 0 && (rem - n >= 0 ==> p + n + (rem - n) <= |buf|) && later == Walk(k, Remaining(buf, p + n, rem - n))
  {
    hide Align, LenField, First, Stride, Walk, Ok, Item.Fits, Item.Flat, HeaderOk, At, ItemAt, Remaining;
    HeaderOkMeansOk(k, buf, p, rem);
    var r := At(buf, p, rem);
    FirstFits(k, r);
    m := First(k, r);
    later := Walk(k, r[Stride(k, r)..]);
    FirstHere(k, buf, p, rem);
    WalkUnfolds(k, r);
    AlignUp(LenField(k, r));
    Advance(buf, p, rem, Align(LenField(k, r)));
  }

  lemma WalkUnfolds(k: Kind, r: seq<byte>)
    requires Ok(k, r)
    ensures Stride(k, r) == Min(Align(LenField(k, r)), |r|)
    ensures Walk(k, r) == [First(k, r)] + Walk(k, r[Stride(k, r)..])
  {
  }

  lemma FirstHere(k: Kind, buf: seq<byte>, p: nat, rem: nat)
    requires p + rem <= |buf| && Ok(k, At(buf, p, rem))
    ensures ItemAt(k, buf, p, First(k, At(buf, p, rem)))
  {
    var h, r := HeaderLen(k), At(buf, p, rem);
    var len := LenField(k, r);
    FirstFits(k, r);
    AtAt(buf, p, rem, 0, h);
    AtAt(buf, p, rem, h, len - h);
    hide Align, LenField, Item.Fits, At;
  }

  lemma NothingMore(k: Kind, buf: seq<byte>, p: nat, rem: int)
    requires rem >= 0 ==> p + rem <= |buf|
    requires !HeaderOk(k, buf, p, rem)
    ensures Walk(k, Remaining(buf, p, rem)) == []
  {
    HeaderOkMeansOk(k, buf, p, rem);
  }

  // What the code reads of an attribute through its pointer.
  lemma AttributeHere(buf: seq<byte>, p: nat, a: Item)
    requires ItemAt(Attribute, buf, p, a)
    ensures p + 4 + |a.data| <= |buf| && LenField(Attribute, At(buf, p, 4)) == 4 + |a.data|
    ensures AddressIn(a) == if |a.data| >= 4 then Set(At(buf, p + 4, 4)) else Stray
    ensures forall t: nat :: HasType(Attribute, a, t) <==> TypeField(Attribute, At(buf, p, 4)) == t
  {
    if |a.data| >= 4 {
      AtAt(buf, p + 4, |a.data|, 0, 4);
    }
  }

  lemma LastAppend(attrs: seq<Item>, a: Item, typ: nat)
    ensures LastOf(attrs + [a], typ) == if HasType(Attribute, a, typ) then AddressIn(a) else LastOf(attrs, typ)
  {
    assert (attrs + [a])[..|attrs|] == attrs;
  }

  lemma {:induction false} EncodeAppend(items: seq<Item>, m: Item)
    ensures Encode(items + [m]) == Encode(items) + m.Flat()
  {
    if items == [] {
      assert [m][1..] == [] && [] + [m] == [m];
    } else {
      assert (items + [m])[1..] == items[1..] + [m];
      EncodeAppend(items[1..], m);
    }
  }

  lemma ShortAppend(attrs: seq<Item>, a: Item)
    ensures SomeShort(attrs + [a]) <==> SomeShort(attrs) || (HoldsAddress(a) && |a.data| < 4)
  {
    if HoldsAddress(a) && |a.data| < 4 {
      assert a in attrs + [a];
    }
    if b :| b in attrs && HoldsAddress(b) && |b.data| < 4 {
      assert b in attrs + [a];
    }
  }

  lemma BeyondAppend(attrs: seq<Item>, a: Item, start: nat, size: nat)
    ensures SomeBeyond(attrs + [a], start, size)
            <==> SomeBeyond(attrs, start, size) || (HoldsAddress(a) && start + |Encode(attrs)| + 8 > size)
  {
    var all := attrs + [a];
    assert all[..|attrs|] == attrs;
    assert forall i | 0 <= i < |attrs| :: all[..i] == attrs[..i] && all[i] == attrs[i];
  }

  lemma OverreadsAppend(msgs: seq<Item>, m: Item)
    ensures SomeOverreads(msgs + [m]) <==> SomeOverreads(msgs) || Overreads(m)
  {
    assert m in msgs + [m];
    assert forall b | b in msgs :: b in msgs + [m];
  }

  lemma LeavesAppend(msgs: seq<Item>, m: Item, size: nat)
    ensures SomeLeaves(msgs + [m], size) <==> SomeLeaves(msgs, size) || LeavesArray(m, |Encode(msgs)|, size)
  {
    var all := msgs + [m];
    assert all[..|msgs|] == msgs;
    assert forall j | 0 <= j < |msgs| :: all[..j] == msgs[..j] && all[j] == msgs[j];
  }

  // RTM_RTA and RTM_PAYLOAD delimit the attributes of the message.
  lemma AttributesStart(buf: seq<byte>, nlh: nat, m: Item)
    requires |buf| <= BUFFER && ItemAt(Message, buf, nlh, m)
    ensures nlh + 16 <= |buf| && m.header == At(buf, nlh, 16)
    ensures var rtl := Payload(LenField(Message, m.header));
            && (rtl >= 0 ==> nlh + 28 + rtl <= |buf|)
            && Attributes(m) == Walk(Attribute, Remaining(buf, nlh + 28, rtl))
  {
    hide Walk, LenField, Payload, ItemAt, At, Remaining, Item.Fits;
    MessageHere(buf, nlh, m);
    PayloadIsSigned(16 + |m.data|);
    RegionHere(buf, nlh, m.data);
  }

  lemma MessageHere(buf: seq<byte>, nlh: nat, m: Item)
    requires ItemAt(Message, buf, nlh, m)
    ensures nlh + 16 + |m.data| <= |buf| && |m.header| == 16 && LenField(Message, m.header) == 16 + |m.data|
    ensures m.header == At(buf, nlh, 16) && m.data == At(buf, nlh + 16, |m.data|)
  {
  }

  lemma RegionHere(buf: seq<byte>, nlh: nat, data: seq<byte>)
    requires nlh + 16 + |data| <= |buf| && data == At(buf, nlh + 16, |data|)
    ensures (if |data| >= RTMSG_LEN then data[RTMSG_LEN..] else []) == Remaining(buf, nlh + 28, |data| - 12)
  {
    if |data| >= RTMSG_LEN {
      Advance(buf, nlh + 16, |data|, RTMSG_LEN);
    }
  }

  lemma NoneYet(start: nat, size: nat)
    ensures LastOf([], RTA_DST) == LastOf([], RTA_GATEWAY) == Unset
    ensures BeforeDone([]) == [] && ReportAll([]) == [] && Encode([]) == []
    ensures !SomeShort([]) && !SomeBeyond([], start, size) && !SomeOverreads([]) && !SomeLeaves([], size)
  {
  }

  lemma Shift(done: seq<Item>, m: Item, rest: seq<Item>)
    ensures done + ([m] + rest) == (done + [m]) + rest
  {
  }

  // Lines 18-34: the walk over the attributes, which starts with `length` bytes at offset start.  An
  // address is read whatever the length of its attribute: `overread` says that one was read
  // from beyond its attribute, `outside` that one was read from beyond the array.
  method WalkAttributes(buffer: array<byte>, start: nat, length: int)
    returns (dst: Address, gateway: Address, overread: bool, outside: bool)
    requires length >= 0 ==> start + length <= buffer.Length
    ensures var attrs := Walk(Attribute, Remaining(buffer[..], start, length));
            && dst == LastOf(attrs, RTA_DST) && gateway == LastOf(attrs, RTA_GATEWAY)
            && (overread <==> SomeShort(attrs)) && (outside <==> SomeBeyond(attrs, start, buffer.Length))
  {
    hide Walk, LastOf, LenField, TypeField, Item.Fits, Item.Flat, Align, HeaderOk, Remaining, HasType, AddressIn, At;
    hide ItemAt, Encode, SomeShort, SomeBeyond;
    dst, gateway, overread, outside := Unset, Unset, false, false;
    var rta: nat, rtl := start, length;
    ghost var attrs := Walk(Attribute, Remaining(buffer[..], start, length));
    ghost var done: seq<Item> := [];
    NoneYet(start, buffer.Length);
    while HeaderOk(Attribute, buffer[..], rta, rtl)
      invariant rtl >= 0 ==> rta + rtl <= buffer.Length
      invariant rtl >= 0 ==> rta == start + |Encode(done)|
      invariant attrs == done + Walk(Attribute, Remaining(buffer[..], rta, rtl))
      invariant dst == LastOf(done, RTA_DST) && gateway == LastOf(done, RTA_GATEWAY)
      invariant overread <==> SomeShort(done)
      invariant outside <==> SomeBeyond(done, start, buffer.Length)
      decreases rtl
    {
      ghost var a, later := ItemHere(Attribute, buffer[..], rta, rtl);
      AttributeHere(buffer[..], rta, a);
      var len := LenField(Attribute, At(buffer[..], rta, 4));
      var typ := TypeField(Attribute, At(buffer[..], rta, 4));
      var addr := if len >= 8 then Set(At(buffer[..], rta + 4, 4)) else Stray;
      LastAppend(done, a, RTA_DST);
      LastAppend(done, a, RTA_GATEWAY);
      ShortAppend(done, a);
      BeyondAppend(done, a, start, buffer.Length);
      EncodeAppend(done, a);
      if typ == RTA_DST || typ == RTA_GATEWAY {
        overread := overread || len < 8;
        outside := outside || rta + 8 > buffer.Length;
      }
      if typ == RTA_DST {
        dst := addr;
      } else if typ == RTA_GATEWAY {
        gateway := addr;
      }
      rtl := rtl - Align(len);
      rta := rta + Align(len);
      Shift(done, a, later);
      done := done + [a];
    }
    NothingMore(Attribute, buffer[..], rta, rtl);
    assert attrs == done;
  }

  // Lines 12-38.  The message at nlh is complete; the result is what is printed.
  method HandleRouteMessage(buffer: array<byte>, nlh: nat, ghost m: Item)
    returns (printed: seq<Route>, overread: bool, outside: bool)
    requires buffer.Length <= BUFFER && ItemAt(Message, buffer[..], nlh, m)
    ensures printed == Report(m)
    ensures (overread <==> Overreads(m)) && (outside <==> LeavesArray(m, nlh, buffer.Length))
  {
    hide Walk, LenField, Payload, Remaining, At, ItemAt, SomeShort, SomeBeyond;
    AttributesStart(buffer[..], nlh, m);
    var header := At(buffer[..], nlh, 16);
    printed, overread, outside := [], false, false;
    if TypeField(Message, header) == RTM_NEWROUTE {
      var dst, gateway;
      dst, gateway, overread, outside :=
        WalkAttributes(buffer, nlh + 16 + RTMSG_LEN, Payload(LenField(Message, header)));
      printed := [Route(dst, gateway)];
    }
  }

  lemma ReportAppend(msgs: seq<Item>, m: Item)
    ensures ReportAll(msgs + [m]) == ReportAll(msgs) + Report(m)
  {
    assert (msgs + [m])[..|msgs|] == msgs;
  }

  lemma BeforeDoneStep(m: Item, msgs: seq<Item>)
    ensures BeforeDone([m] + msgs) == if HasType(Message, m, NLMSG_DONE) then [] else [m] + BeforeDone(msgs)
  {
    assert ([m] + msgs)[1..] == msgs;
  }

  // The type that the code reads through its pointer.
  lemma TypeHere(buf: seq<byte>, p: nat, m: Item)
    requires ItemAt(Message, buf, p, m)
    ensures p + 16 <= |buf|
    ensures HasType(Message, m, NLMSG_DONE) <==> TypeField(Message, At(buf, p, 16)) == NLMSG_DONE
  {
  }

  lemma WholeBuffer(buffer: array<byte>, n: nat)
    requires n <= buffer.Length
    ensures Remaining(buffer[..], 0, n) == buffer[..n]
  {
  }

  // Lines 107-113, over the first n bytes received: what is printed is what the messages before
  // the first NLMSG_DONE report, and the reads of addresses stay within their attributes and
  // within the array unless one of these messages says otherwise.
  method WalkMessages(buffer: array<byte>, n: int) returns (printed: seq<Route>, overread: bool, outside: bool)
    requires buffer.Length <= BUFFER && 0 <= n <= buffer.Length
    ensures var visited := BeforeDone(Walk(Message, buffer[..n]));
            && printed == ReportAll(visited)
            && (overread <==> SomeOverreads(visited)) && (outside <==> SomeLeaves(visited, buffer.Length))
  {
    hide HasType, Walk, LenField, TypeField, Item.Fits, Item.Flat, Align, HeaderOk, Remaining, BeforeDone, ReportAll;
    hide Report, At, ItemAt, Encode, SomeOverreads, SomeLeaves, Overreads, LeavesArray;
    WholeBuffer(buffer, n);
    var nlh: nat, rem := 0, n;
    printed, overread, outside := [], false, false;
    ghost var wanted := BeforeDone(Walk(Message, buffer[..n]));
    ghost var done: seq<Item> := [];
    NoneYet(0, buffer.Length);
    while HeaderOk(Message, buffer[..], nlh, rem)
      invariant rem >= 0 ==> nlh + rem <= buffer.Length
      invariant rem >= 0 ==> nlh == |Encode(done)|
      invariant wanted == done + BeforeDone(Walk(Message, Remaining(buffer[..], nlh, rem)))
      invariant printed == ReportAll(done)
      invariant (overread <==> SomeOverreads(done)) && (outside <==> SomeLeaves(done, buffer.Length))
      decreases rem
    {
      ghost var m, later := ItemHere(Message, buffer[..], nlh, rem);
      TypeHere(buffer[..], nlh, m);
      var header := At(buffer[..], nlh, 16);
      var len := LenField(Message, header);
      BeforeDoneStep(m, later);
      if TypeField(Message, header) == NLMSG_DONE {
        assert wanted == done;
        return;
      }
      var route, beyond, away := HandleRouteMessage(buffer, nlh, m);
      printed, overread, outside := printed + route, overread || beyond, outside || away;
      ReportAppend(done, m);
      OverreadsAppend(done, m);
      LeavesAppend(done, m, buffer.Length);
      EncodeAppend(done, m);
      Shift(done, m, BeforeDone(later));
      done := done + [m];
      rem := rem - Align(len);
      nlh := nlh + Align(len);
    }
    NothingMore(Message, buffer[..], nlh, rem);
    assert wanted == done;
  }
}
