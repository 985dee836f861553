/** What is sent is what is received: exactly for packets without empty items, one after another
    on the same connection. */
module PacketRoundTrip {
  import opened PacketModel

  ghost predicate NonEmpty(items: seq<seq<Byte>>) {
    forall i :: 0 <= i < |items| ==> items[i] != []
  }

  /** A packet as its sender means it. */
  datatype Message = Message(codigo: int, items: seq<seq<Byte>>)

  ghost predicate Sendable(m: Message) {
    IsInt(m.codigo) && Sizes(m.items) && Espacio(Paquete(m.codigo, Pack(m.items))) <= INT_MAX
  }

  function Sent(m: Message): seq<Byte>
    requires Sendable(m)
  {
    Serialized(Paquete(m.codigo, Pack(m.items)))
  }

  // ---------------------------------------------------------------- one length, one item

  lemma Prefix(n: int, tail: seq<Byte>)
    requires IsInt(n)
    ensures var s := EncodeInt(n) + tail;
      |s| >= 4 && DecodeInt(s[..4]) == n && s[4..] == tail
  {
    var s := EncodeInt(n) + tail;
    assert s[..4] == EncodeInt(n);
    IntRoundTrip(n);
  }

  lemma ItemPrefix(item: seq<Byte>, tail: seq<Byte>)
    requires IsInt(|item|)
    ensures var s := Added([], item) + tail;
      && |s| >= 4 + |item| && DecodeInt(s[..4]) == |item|
      && s[4..4 + |item|] == item && s[4 + |item|..] == tail
  {
    var s := Added([], item) + tail;
    assert s == EncodeInt(|item|) + (item + tail);
    Prefix(|item|, item + tail);
    assert s[4..4 + |item|] == s[4..][..|item|];
    assert s[4 + |item|..] == s[4..][|item|..];
  }

  // ---------------------------------------------------------------- the receive loop

  lemma RecvItem(item: seq<Byte>, tail: seq<Byte>, stream: seq<Byte>)
    requires IsInt(|item|)
    ensures RecvItems(Added([], item) + tail, stream) ==
      if item == [] then Got(stream, tail) else RecvItems(tail, Added(stream, item))
  {
    hide DecodeInt, RecvItems, Added;
    ItemPrefix(item, tail);
    RecvItemsNext(Added([], item) + tail, stream);
  }

  lemma PackHead(items: seq<seq<Byte>>, tail: seq<Byte>)
    requires Sizes(items) && items != []
    ensures Pack(items) + tail == Added([], items[0]) + (Pack(items[1..]) + tail)
  {
    hide Added;
  }

  lemma PackAfter(stream: seq<Byte>, items: seq<seq<Byte>>)
    requires Sizes(items) && items != []
    ensures stream + Pack(items) == Added(stream, items[0]) + Pack(items[1..])
  {
    hide EncodeInt;
  }

  /** The loop takes the items up to the first empty one, and stops right after its length. */
  lemma {:induction false} RecvItemsStops(items: seq<seq<Byte>>, j: nat, stream: seq<Byte>, tail: seq<Byte>)
    requires Sizes(items) && j < |items| && items[j] == [] && NonEmpty(items[..j])
    ensures RecvItems(Pack(items) + tail, stream) == Got(stream + Pack(items[..j]), Pack(items[j + 1..]) + tail)
    decreases j
  {
    hide RecvItems, Added;
    var rest := items[1..];
    PackHead(items, tail);
    RecvItem(items[0], Pack(rest) + tail, stream);
    if j == 0 {
      assert items[..0] == [] && items[1..] == rest;
      assert stream + Pack([]) == stream;
    } else {
      assert items[..j][0] == items[0];
      assert rest[..j - 1] == items[..j][1..] && rest[j..] == items[j + 1..];
      RecvItemsStops(rest, j - 1, Added(stream, items[0]), tail);
      PackAfter(stream, items[..j]);
    }
  }

  /** With no empty item it takes them all, and the end mark. */
  lemma {:induction false} RecvItemsAll(items: seq<seq<Byte>>, stream: seq<Byte>, tail: seq<Byte>)
    requires Sizes(items) && NonEmpty(items)
    ensures RecvItems(Pack(items) + (EncodeInt(0) + tail), stream) == Got(stream + Pack(items), tail)
    decreases |items|
  {
    hide RecvItems, Added, EncodeInt, DecodeInt;
    if items == [] {
      assert Pack(items) + (EncodeInt(0) + tail) == EncodeInt(0) + tail;
      Prefix(0, tail);
      RecvItemsNext(EncodeInt(0) + tail, stream);
      assert stream + Pack(items) == stream;
    } else {
      PackHead(items, EncodeInt(0) + tail);
      RecvItem(items[0], Pack(items[1..]) + (EncodeInt(0) + tail), stream);
      RecvItemsAll(items[1..], Added(stream, items[0]), tail);
      PackAfter(stream, items);
    }
  }

  /** The items of a buffer without empty items. */
  lemma {:induction false} ItemsOfPack(items: seq<seq<Byte>>)
    requires Sizes(items) && NonEmpty(items)
    ensures Items(Pack(items)) == items
    decreases |items|
  {
    if items != [] {
      var rest := items[1..];
      ItemPrefix(items[0], Pack(rest));
      hide EncodeInt, DecodeInt;
      ItemsOfPack(rest);
      assert items == [items[0]] + rest;
    }
  }

  // ---------------------------------------------------------------- one packet

  lemma Header(m: Message, rest: seq<Byte>)
    requires Sendable(m)
    ensures var s := Sent(m) + rest;
      var body := if Pack(m.items) != [] then Pack(m.items) + EncodeInt(0) else [];
      && |s| >= 8 && DecodeInt(s[..4]) == m.codigo && DecodeInt(s[4..8]) == |Pack(m.items)| && s[8..] == body + rest
  {
    var s := Sent(m) + rest;
    var body := if Pack(m.items) != [] then Pack(m.items) + EncodeInt(0) else [];
    assert s == EncodeInt(m.codigo) + (EncodeInt(|Pack(m.items)|) + (body + rest));
    Prefix(m.codigo, EncodeInt(|Pack(m.items)|) + (body + rest));
    Prefix(|Pack(m.items)|, body + rest);
    assert s[4..8] == s[4..][..4] && s[8..] == s[4..][4..];
  }

  /** What recv_package makes of a sent packet, by its receive loop. */
  lemma RecvSent(m: Message, rest: seq<Byte>)
    requires Sendable(m)
    ensures Recv(Sent(m) + rest) ==
      if Pack(m.items) == [] then Got(Paquete(m.codigo, []), rest)
      else match RecvItems(Pack(m.items) + (EncodeInt(0) + rest), [])
        case Exited => Exited
        case Got(stream, last) => Got(Paquete(m.codigo, stream), last)
  {
    hide EncodeInt, DecodeInt, RecvItems, Pack, Sent;
    Header(m, rest);
    if Pack(m.items) != [] {
      assert Pack(m.items) + EncodeInt(0) + rest == Pack(m.items) + (EncodeInt(0) + rest);
    } else {
      assert [] + rest == rest;
    }
  }

  /** A packet without empty items is received whole, and nothing after it is touched. */
  lemma Arrives(m: Message, rest: seq<Byte>)
    requires Sendable(m) && NonEmpty(m.items)
    ensures RecvPackage(Sent(m) + rest) == Got((m.codigo, m.items), rest)
    ensures |Sent(m)| == Espacio(Paquete(m.codigo, Pack(m.items)))
  {
    RecvSent(m, rest);
    ItemsOfPack(m.items);
    RecvItemsAll(m.items, [], rest);
    hide EncodeInt, Items, RecvItems, Recv, Pack;
    assert [] + Pack(m.items) == Pack(m.items);
  }

  lemma PackNotEmpty(items: seq<seq<Byte>>)
    requires Sizes(items) && items != []
    ensures |Pack(items)| >= 4
  {
  }

  /** The first empty item ends the packet for the receiver; what follows it stays on the
      connection and is taken for the next packet. */
  lemma EmptyItemCuts(m: Message, j: nat, rest: seq<Byte>)
    requires Sendable(m) && j < |m.items| && m.items[j] == [] && NonEmpty(m.items[..j])
    ensures RecvPackage(Sent(m) + rest) == Got((m.codigo, m.items[..j]), Pack(m.items[j + 1..]) + EncodeInt(0) + rest)
  {
    hide EncodeInt, Items, RecvItems, Recv, Pack, Sent;
    RecvSent(m, rest);
    PackNotEmpty(m.items);
    RecvItemsStops(m.items, j, [], EncodeInt(0) + rest);
    ItemsOfPack(m.items[..j]);
    assert [] + Pack(m.items[..j]) == Pack(m.items[..j]);
    assert Pack(m.items[j + 1..]) + EncodeInt(0) + rest == Pack(m.items[j + 1..]) + (EncodeInt(0) + rest);
  }

  lemma {:induction false} FirstEmpty(items: seq<seq<Byte>>) returns (j: nat)
    requires !NonEmpty(items)
    ensures j < |items| && items[j] == [] && NonEmpty(items[..j])
  {
    j := 0;
    while items[j] != []
      invariant j < |items| && forall i :: 0 <= i < j ==> items[i] != []
      decreases |items| - j
    {
      j := j + 1;
      if j == |items| { assert NonEmpty(items); }
    }
  }

  /** The round trip holds exactly for packets without empty items. */
  lemma RoundTripIff(m: Message, rest: seq<Byte>)
    requires Sendable(m)
    ensures RecvPackage(Sent(m) + rest) == Got((m.codigo, m.items), rest) <==> NonEmpty(m.items)
  {
    if NonEmpty(m.items) {
      Arrives(m, rest);
    } else {
      var j := FirstEmpty(m.items);
      EmptyItemCuts(m, j, rest);
      assert |m.items[..j]| == j;
      hide RecvPackage, Sent;
    }
  }

  // ---------------------------------------------------------------- a connection

  ghost predicate AllSendable(ms: seq<Message>) {
    forall i :: 0 <= i < |ms| ==> Sendable(ms[i])
  }

  function SentAll(ms: seq<Message>): seq<Byte>
    requires AllSendable(ms)
  {
    if ms == [] then [] else Sent(ms[0]) + SentAll(ms[1..])
  }

  /** `n` calls of recv_package. */
  function RecvMany(input: seq<Byte>, n: nat): Received<seq<Message>>
    decreases n
  {
    if n == 0 then Got([], input)
    else match RecvPackage(input)
      case Exited => Exited
      case Got((codigo, items), rest) =>
        match RecvMany(rest, n - 1)
        case Exited => Exited
        case Got(ms, last) => Got([Message(codigo, items)] + ms, last)
  }

  /** Decoding the concatenation of any packets without empty items gives them back in order and
      leaves the rest of the stream untouched. */
  lemma {:induction false} StreamRoundTrip(ms: seq<Message>, rest: seq<Byte>)
    requires AllSendable(ms) && forall i :: 0 <= i < |ms| ==> NonEmpty(ms[i].items)
    ensures RecvMany(SentAll(ms) + rest, |ms|) == Got(ms, rest)
    decreases |ms|
  {
    hide Sendable, Sent, RecvPackage;
    if ms == [] {
      assert SentAll(ms) + rest == rest;
    } else {
      assert SentAll(ms) + rest == Sent(ms[0]) + (SentAll(ms[1..]) + rest);
      Arrives(ms[0], SentAll(ms[1..]) + rest);
      StreamRoundTrip(ms[1..], rest);
      assert ms == [ms[0]] + ms[1..];
      assert Message(ms[0].codigo, ms[0].items) == ms[0];
    }
  }

  /** Different packets are different bytes: no two conversations look the same. */
  lemma {:induction false} SentInjective(a: seq<Message>, b: seq<Message>)
    requires AllSendable(a) && AllSendable(b) && SentAll(a) == SentAll(b)
    requires (forall i :: 0 <= i < |a| ==> NonEmpty(a[i].items)) && (forall i :: 0 <= i < |b| ==> NonEmpty(b[i].items))
    ensures a == b
    decreases |a|
  {
    hide Sendable, Sent, RecvPackage;
    if a == [] || b == [] {
      if a != [] { SentNotEmpty(a[0]); }
      if b != [] { SentNotEmpty(b[0]); }
    } else {
      Arrives(a[0], SentAll(a[1..]));
      Arrives(b[0], SentAll(b[1..]));
      SentInjective(a[1..], b[1..]);
      assert a == [a[0]] + a[1..] && b == [b[0]] + b[1..];
    }
  }

  lemma SentNotEmpty(m: Message)
    requires Sendable(m)
    ensures Sent(m) != []
  {
  }
}
