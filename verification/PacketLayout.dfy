/** Where each byte of a packet is on the wire, and what the receiver makes of less than all of them. */
module PacketLayout {
  import opened PacketModel
  import opened PacketRoundTrip

  /** An int is its four bytes, least significant first, in two's complement. */
  lemma IntBytes(n: int)
    requires IsInt(n)
    ensures var b := EncodeInt(n);
      b[0] as int + 0x100 * b[1] as int + 0x1_0000 * b[2] as int + 0x100_0000 * b[3] as int
        == if n < 0 then n + 0x1_0000_0000 else n
  {
    var u := Pattern(n);
    var v := u / 256;
    var w := v / 256;
    assert u == 256 * v + u % 256 && v == 256 * w + v % 256 && w == 256 * (w / 256) + w % 256;
  }

  /** Bytes the items take, each behind its length. */
  function Span(items: seq<seq<Byte>>): nat {
    if items == [] then 0 else 4 + |items[0]| + Span(items[1..])
  }

  lemma {:induction false} PackSpan(items: seq<seq<Byte>>)
    requires Sizes(items)
    ensures |Pack(items)| == Span(items)
  {
    if items != [] { PackSpan(items[1..]); }
  }

  /** Item `i` is where the items before it end. */
  lemma {:induction false} PackAt(items: seq<seq<Byte>>, i: nat)
    requires Sizes(items) && i < |items|
    ensures var (s, o) := (Pack(items), Span(items[..i]));
      && o + 4 + |items[i]| <= |s|
      && s[o..o + 4] == EncodeInt(|items[i]|) && s[o + 4..o + 4 + |items[i]|] == items[i]
    decreases i
  {
    hide EncodeInt;
    var (s, rest) := (Pack(items), Pack(items[1..]));
    assert [] + EncodeInt(|items[0]|) == EncodeInt(|items[0]|);
    assert s == EncodeInt(|items[0]|) + items[0] + rest;
    var n := 4 + |items[0]|;
    if i == 0 {
      assert items[..0] == [];
      assert s[0..4] == EncodeInt(|items[0]|) && s[4..n] == items[0];
    } else {
      PackAt(items[1..], i - 1);
      assert items[..i][0] == items[0] && items[..i][1..] == items[1..][..i - 1] && items[i] == items[1..][i - 1];
      var o := Span(items[1..][..i - 1]);
      assert Span(items[..i]) == n + o;
      assert s[n + o..n + o + 4] == rest[o..o + 4];
      assert s[n + o + 4..n + o + 4 + |items[i]|] == rest[o + 4..o + 4 + |items[i]|];
    }
  }

  /** From byte 8 on, the items in order, each behind its length. */
  ghost predicate ItemsAt(s: seq<Byte>, items: seq<seq<Byte>>) {
    Sizes(items) && forall i :: 0 <= i < |items| ==> ItemAt(s, 8 + Span(items[..i]), items[i])
  }

  ghost predicate ItemAt(s: seq<Byte>, o: nat, item: seq<Byte>)
    requires |item| <= INT_MAX
  {
    o + 4 + |item| <= |s| && s[o..o + 4] == EncodeInt(|item|) && s[o + 4..o + 4 + |item|] == item
  }

  lemma SentParts(m: Message)
    requires Sendable(m)
    ensures IsInt(Span(m.items)) && |Pack(m.items)| == Span(m.items)
    ensures Sent(m) == EncodeInt(m.codigo) + EncodeInt(Span(m.items)) + Pack(m.items)
      + if m.items == [] then [] else EncodeInt(0)
  {
    hide EncodeInt, Pack;
    PackSpan(m.items);
    if m.items != [] { PackNotEmpty(m.items); } else { EmptyPack(); }
  }

  /** The opcode, the bytes the items take, the items, and, unless there is none, a length of 0. */
  lemma SentLayout(m: Message)
    requires Sendable(m)
    ensures var (s, n) := (Sent(m), Span(m.items));
      && IsInt(n) && |s| == 8 + n + (if m.items == [] then 0 else 4)
      && s[..4] == EncodeInt(m.codigo) && s[4..8] == EncodeInt(n)
      && (m.items != [] ==> s[8 + n..] == EncodeInt(0)) && ItemsAt(s, m.items)
  {
    hide EncodeInt, Pack, Sent, Sizes, ItemsAt;
    SentParts(m);
    var n := Span(m.items);
    var (head, tail) := (EncodeInt(m.codigo) + EncodeInt(n), if m.items == [] then [] else EncodeInt(0));
    var s := head + Pack(m.items) + tail;
    assert s[..4] == EncodeInt(m.codigo) && s[4..8] == EncodeInt(n) && s[8 + n..] == tail;
    assert ItemsAt(s, m.items) by { ItemsBehind(head, m.items, tail); }
  }

  lemma ItemsBehind(head: seq<Byte>, items: seq<seq<Byte>>, tail: seq<Byte>)
    requires |head| == 8 && Sizes(items)
    ensures ItemsAt(head + Pack(items) + tail, items)
  {
    hide EncodeInt, Pack;
    forall i | 0 <= i < |items|
      ensures ItemAt(head + Pack(items) + tail, 8 + Span(items[..i]), items[i])
    {
      PackAt(items, i);
      Behind(head, Pack(items), tail, Span(items[..i]), 4, |items[i]|);
    }
  }

  /** A piece of the middle part. */
  lemma Behind(head: seq<Byte>, p: seq<Byte>, tail: seq<Byte>, o: nat, a: nat, b: nat)
    requires o + a + b <= |p|
    ensures var (s, h) := (head + p + tail, |head|);
      s[h + o..h + o + a] == p[o..o + a] && s[h + o + a..h + o + a + b] == p[o + a..o + a + b]
  {
  }

  lemma EmptyPack()
    ensures Pack([]) == []
  {
  }

  // ---------------------------------------------------------------- less than a packet

  lemma {:induction false} CutItems(items: seq<seq<Byte>>, k: nat, stream: seq<Byte>)
    requires Sizes(items) && NonEmpty(items) && k < |Pack(items)| + 4
    ensures RecvItems((Pack(items) + EncodeInt(0))[..k], stream) == Exited
    decreases |items|
  {
    hide EncodeInt, DecodeInt, Added, RecvItems;
    var input := (Pack(items) + EncodeInt(0))[..k];
    RecvItemsNext(input, stream);
    if items != [] && k >= 4 {
      var rest := Pack(items[1..]) + EncodeInt(0);
      PackHead(items, EncodeInt(0));
      ItemPrefix(items[0], rest);
      var all := Added([], items[0]) + rest;
      assert input == all[..k] && input[..4] == all[..4];
      var n := 4 + |items[0]|;
      if k >= n {
        assert input[4..n] == all[4..n] && input[n..] == rest[..k - n];
        CutItems(items[1..], k - n, Added(stream, items[0]));
      }
    }
  }

  /** Byte `k` is the first of a piece: the opcode, the size, a length, or an item. */
  ghost predicate StartsPiece(m: Message, k: nat) {
    || k == 0 || k == 4
    || exists i :: 0 <= i <= |m.items| && (k == 8 + Span(m.items[..i]) || k == 12 + Span(m.items[..i]))
  }

  /** A connection that ends between two pieces of a packet ends the process: the pieces before are
      not taken for a packet. */
  lemma CutExits(m: Message, k: nat)
    requires Sendable(m) && NonEmpty(m.items) && k < |Sent(m)| && StartsPiece(m, k)
    ensures Recv(Sent(m)[..k]) == Exited
  {
    hide EncodeInt, DecodeInt, RecvItems, Pack, Sizes, StartsPiece, Sent;
    SentParts(m);
    if k >= 8 {
      var (s, n) := (Sent(m), Span(m.items));
      var head := EncodeInt(m.codigo) + EncodeInt(n);
      var body := Pack(m.items) + EncodeInt(0);
      if m.items == [] { EmptyPack(); }
      assert s == head + body;
      Prefix(n, []);
      assert s[..k][4..8] == (EncodeInt(n) + [])[..4] && s[..k][8..] == body[..k - 8];
      assert n != 0;
      CutItems(m.items, k - 8, []);
    }
  }

  /** A negative length is passed over. */
  lemma NegativePassed(n: int, tail: seq<Byte>, stream: seq<Byte>)
    requires INT_MIN <= n < 0
    ensures RecvItems(EncodeInt(n) + tail, stream) == RecvItems(tail, stream)
  {
    hide EncodeInt, DecodeInt, RecvItems;
    Prefix(n, tail);
    RecvItemsNext(EncodeInt(n) + tail, stream);
  }
}
