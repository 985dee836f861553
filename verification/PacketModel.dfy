/** The wire format: an opcode, the size of the buffer, and the items, each behind its length, with
    a zero length to end them.  Lengths are C ints in host order. */
module PacketModel {
  import opened StorageModel

  type Byte = b: int | 0 <= b < 256

  const INT_MAX: int := 0x7fff_ffff
  const INT_MIN: int := -0x8000_0000

  predicate IsInt(n: int) {
    INT_MIN <= n <= INT_MAX
  }

  // ---------------------------------------------------------------- ints

  /** The bit pattern of an int, as an unsigned number. */
  function Pattern(n: int): (u: int)
    requires IsInt(n)
    ensures 0 <= u < 0x1_0000_0000
  {
    if n < 0 then n + 0x1_0000_0000 else n
  }

  function EncodeInt(n: int): (r: seq<Byte>)
    requires IsInt(n)
    ensures |r| == 4
  {
    var u := Pattern(n);
    var v: int := u / 256;
    var w: int := v / 256;
    var x: int := w / 256;
    [u % 256, v % 256, w % 256, x]
  }

  function DecodeInt(b: seq<Byte>): (n: int)
    requires |b| == 4
    ensures IsInt(n)
  {
    var b0: int := b[0];
    var b1: int := b[1];
    var b2: int := b[2];
    var b3: int := b[3];
    var u := b0 + 256 * b1 + 65536 * b2 + 16777216 * b3;
    if u > INT_MAX then u - 0x1_0000_0000 else u
  }

  lemma IntRoundTrip(n: int)
    requires IsInt(n)
    ensures DecodeInt(EncodeInt(n)) == n
  {
    var u := Pattern(n);
    var v := u / 256;
    var w := v / 256;
    var x := w / 256;
    assert u == 256 * v + u % 256 && v == 256 * w + v % 256 && w == 256 * x + w % 256;
  }

  // ---------------------------------------------------------------- building and sending

  /** paquete_t */
  datatype Paquete = Paquete(codigo: int, stream: seq<Byte>)

  /** The buffer after agregar_a_paquete. */
  function Added(stream: seq<Byte>, valor: seq<Byte>): seq<Byte>
    requires IsInt(|valor|)
  {
    stream + EncodeInt(|valor|) + valor
  }

  ghost predicate Sizes(items: seq<seq<Byte>>) {
    forall i :: 0 <= i < |items| ==> |items[i]| <= INT_MAX
  }

  /** The buffer of a packet the items were added to in order. */
  function Pack(items: seq<seq<Byte>>): seq<Byte>
    requires Sizes(items)
  {
    if items == [] then [] else Added([], items[0]) + Pack(items[1..])
  }

  /** espacio_paquete_serializado */
  function Espacio(p: Paquete): nat {
    8 + |p.stream| + if p.stream != [] then 4 else 0
  }

  /** serializar_paquete: an empty buffer has no end mark. */
  function Serialized(p: Paquete): (r: seq<Byte>)
    requires IsInt(p.codigo) && IsInt(|p.stream|)
    ensures |r| == Espacio(p)
  {
    EncodeInt(p.codigo) + EncodeInt(|p.stream|) + if p.stream != [] then p.stream + EncodeInt(0) else []
  }

  // ---------------------------------------------------------------- receiving

  /** What a receive leaves: the packet and the rest of the connection, or the process has exited. */
  datatype Received<T> = Got(value: T, rest: seq<Byte>) | Exited

  /** The loop of recibir_paquete: an item for each positive length, up to a length of 0. */
  function RecvItems(input: seq<Byte>, stream: seq<Byte>): Received<seq<Byte>>
    decreases |input|
  {
    if |input| < 4 then Exited
    else
      var size := DecodeInt(input[..4]);
      if size == 0 then Got(stream, input[4..])
      else if size < 0 then RecvItems(input[4..], stream)
      else if |input| < 4 + size then Exited
      else RecvItems(input[4 + size..], Added(stream, input[4..4 + size]))
  }

  /** recibir_paquete */
  function Recv(input: seq<Byte>): Received<Paquete> {
    if |input| < 8 then Exited
    else
      var (codigo, total) := (DecodeInt(input[..4]), DecodeInt(input[4..8]));
      if total == 0 then Got(Paquete(codigo, []), input[8..])
      else match RecvItems(input[8..], [])
        case Exited => Exited
        case Got(stream, rest) => Got(Paquete(codigo, stream), rest)
  }

  /** A buffer starts with the length of an item it holds. */
  predicate Readable(stream: seq<Byte>) {
    stream != [] ==> |stream| >= 4 && 0 <= DecodeInt(stream[..4]) <= |stream| - 4
  }

  /** obtener_siguiente_item: the item, and what is left in the buffer. */
  function NextItem(stream: seq<Byte>): Option<(seq<Byte>, seq<Byte>)>
    requires Readable(stream)
  {
    if stream == [] then None
    else
      var size := DecodeInt(stream[..4]);
      if size == 0 then None else Some((stream[4..4 + size], stream[4 + size..]))
  }

  /** The loop of recv_package over the items. */
  function Items(stream: seq<Byte>): seq<seq<Byte>>
    decreases |stream|
  {
    if !Readable(stream) then []
    else match NextItem(stream)
      case None => []
      case Some((item, rest)) => [item] + Items(rest)
  }

  /** recv_package: the opcode and the items. */
  function RecvPackage(input: seq<Byte>): Received<(int, seq<seq<Byte>>)> {
    match Recv(input)
    case Exited => Exited
    case Got(p, rest) => Got((p.codigo, Items(p.stream)), rest)
  }

  /** One turn of the receive loop. */
  lemma RecvItemsNext(input: seq<Byte>, stream: seq<Byte>)
    ensures RecvItems(input, stream) ==
      if |input| < 4 then Exited
      else
        var size := DecodeInt(input[..4]);
        if size == 0 then Got(stream, input[4..])
        else if size < 0 then RecvItems(input[4..], stream)
        else if |input| < 4 + size then Exited
        else RecvItems(input[4 + size..], Added(stream, input[4..4 + size]))
  {
    hide DecodeInt;
  }

  // ---------------------------------------------------------------- what recibir_paquete builds

  /** Items of positive length, one after another. */
  ghost predicate Packed(stream: seq<Byte>)
    decreases |stream|
  {
    stream != [] ==>
      && Readable(stream) && DecodeInt(stream[..4]) > 0
      && Packed(stream[4 + DecodeInt(stream[..4])..])
  }

  lemma {:induction false} AddedPacked(stream: seq<Byte>, valor: seq<Byte>)
    requires Packed(stream) && valor != [] && IsInt(|valor|)
    ensures Packed(Added(stream, valor))
    decreases |stream|
  {
    var r := Added(stream, valor);
    if stream == [] {
      assert r[..4] == EncodeInt(|valor|);
      IntRoundTrip(|valor|);
      assert r[4 + |valor|..] == [];
    } else {
      var n := 4 + DecodeInt(stream[..4]);
      assert r[..4] == stream[..4] && r[n..] == Added(stream[n..], valor);
      hide DecodeInt, EncodeInt;
      AddedPacked(stream[n..], valor);
    }
  }

  lemma {:induction false} RecvItemsPacked(input: seq<Byte>, stream: seq<Byte>)
    requires Packed(stream)
    ensures RecvItems(input, stream).Got? ==> Packed(RecvItems(input, stream).value)
    decreases |input|
  {
    if |input| >= 4 {
      var size := DecodeInt(input[..4]);
      hide DecodeInt, EncodeInt;
      if size < 0 {
        RecvItemsPacked(input[4..], stream);
      } else if size > 0 && |input| >= 4 + size {
        AddedPacked(stream, input[4..4 + size]);
        RecvItemsPacked(input[4 + size..], Added(stream, input[4..4 + size]));
      }
    }
  }

  /** Whatever arrives, the packet built from it can be taken apart to its last byte. */
  lemma RecvPacked(input: seq<Byte>)
    ensures Recv(input).Got? ==> Packed(Recv(input).value.stream)
  {
    if |input| >= 8 { RecvItemsPacked(input[8..], []); }
  }
}
