/** Packets in the form of their C code: a buffer that grows and is consumed, and a connection read
    a piece at a time. */
module PacketService {
  import opened StorageModel
  import opened PacketModel

  /** The bytes still to be received on a connection. */
  class Socket {
    var input: seq<Byte>

    constructor (input: seq<Byte>)
      ensures this.input == input
    {
      this.input := input;
    }

    /** recv with MSG_WAITALL. */
    method Recv(n: nat) returns (ok: bool, bytes: seq<Byte>)
      modifies this
      ensures ok == (|old(input)| >= n)
      ensures if ok then bytes == old(input)[..n] && input == old(input)[n..] else bytes == [] && input == old(input)
    {
      if |input| < n { return false, []; }
      ok, bytes := true, input[..n];
      input := input[n..];
    }
  }

  class Buffer {
    const codigo: int
    var stream: seq<Byte>

    ghost function Contents(): Paquete
      reads this
    {
      Paquete(codigo, stream)
    }

    /** crear_paquete */
    constructor (codigo: int)
      ensures Contents() == Paquete(codigo, [])
    {
      this.codigo := codigo;
      stream := [];
    }

    method AgregarAPaquete(valor: seq<Byte>)
      requires IsInt(|valor|)
      modifies this`stream
      ensures stream == Added(old(stream), valor)
    {
      var size := EncodeInt(|valor|);
      stream := stream + size;
      stream := stream + valor;
    }

    method EspacioPaqueteSerializado() returns (total: nat)
      ensures total == Espacio(Contents())
    {
      total := 4 + 4 + |stream|;
      if |stream| != 0 { total := total + 4; }
    }

    /** The pieces are copied one after another into a block of that size. */
    method SerializarPaquete() returns (r: array<Byte>)
      requires IsInt(codigo) && Espacio(Contents()) <= INT_MAX
      ensures fresh(r) && r[..] == Serialized(Contents())
    {
      var total := EspacioPaqueteSerializado();
      r := new Byte[total];
      Copiar(r, 0, EncodeInt(codigo));
      var desplazamiento := 4;
      Copiar(r, desplazamiento, EncodeInt(|stream|));
      desplazamiento := desplazamiento + 4;
      ghost var head := EncodeInt(codigo) + EncodeInt(|stream|);
      assert r[..8] == head;
      if |stream| != 0 {
        Copiar(r, desplazamiento, stream);
        desplazamiento := desplazamiento + |stream|;
        assert r[..desplazamiento] == head + stream;
        Copiar(r, desplazamiento, EncodeInt(0));
        assert r[..] == r[..desplazamiento + 4];
        assert r[..] == head + stream + EncodeInt(0);
        assert head + stream + EncodeInt(0) == head + (stream + EncodeInt(0));
      } else {
        assert r[..] == r[..8] && head + [] == head;
      }
    }

    /** obtener_siguiente_item */
    method ObtenerSiguienteItem() returns (item: Option<seq<Byte>>)
      requires Readable(stream)
      modifies this`stream
      ensures match NextItem(old(stream))
        case None => item == None && stream == old(stream)
        case Some((i, rest)) => item == Some(i) && stream == rest
    {
      if |stream| == 0 { return None; }
      var size := DecodeInt(stream[..4]);
      if size == 0 { return None; }
      item := Some(stream[4..4 + size]);
      stream := stream[4 + size..];
    }
  }

  /** memcpy */
  method Copiar(r: array<Byte>, at: nat, piece: seq<Byte>)
    requires at + |piece| <= r.Length
    modifies r
    ensures r[..at + |piece|] == old(r[..at]) + piece && r[at + |piece|..] == old(r[at + |piece|..])
  {
    var i := 0;
    while i < |piece|
      invariant 0 <= i <= |piece|
      invariant forall j :: 0 <= j < at ==> r[j] == old(r[j])
      invariant forall j :: 0 <= j < i ==> r[at + j] == piece[j]
      invariant forall j :: at + |piece| <= j < r.Length ==> r[j] == old(r[j])
    {
      r[at + i] := piece[i];
      i := i + 1;
    }
  }

  /** recibir_paquete; `ok` is false where the process exits. */
  method RecibirPaquete(socket: Socket) returns (ok: bool, paquete: Buffer)
    modifies socket
    ensures fresh(paquete)
    ensures match Recv(old(socket.input))
      case Exited => !ok
      case Got(p, rest) => ok && paquete.Contents() == p && socket.input == rest
  {
    hide DecodeInt, RecvItems;
    ghost var all := socket.input;
    var bytes;
    ok, bytes := socket.Recv(4);
    paquete := new Buffer(if ok then DecodeInt(bytes) else 0);
    if !ok { return; }
    ok, bytes := socket.Recv(4);
    if !ok { return; }
    assert bytes == all[4..8] && socket.input == all[8..];
    if DecodeInt(bytes) != 0 { ok := RecibirItems(socket, paquete); }
  }

  /** The loop: a length, and that many bytes, up to a length of 0. */
  method RecibirItems(socket: Socket, paquete: Buffer) returns (ok: bool)
    modifies socket, paquete`stream
    ensures match RecvItems(old(socket.input), old(paquete.stream))
      case Exited => !ok
      case Got(stream, rest) => ok && paquete.stream == stream && socket.input == rest
  {
    hide DecodeInt, EncodeInt, RecvItems;
    ghost var expected := RecvItems(socket.input, paquete.stream);
    ok := true;
    var size := 1;
    while size != 0
      invariant ok
      invariant if size != 0 then RecvItems(socket.input, paquete.stream) == expected
        else expected == Got(paquete.stream, socket.input)
      decreases size != 0, |socket.input|
    {
      ghost var left := socket.input;
      RecvItemsNext(left, paquete.stream);
      var bytes;
      ok, bytes := socket.Recv(4);
      if !ok { return; }
      size := DecodeInt(bytes);
      if size > 0 {
        ok, bytes := socket.Recv(size);
        if !ok { return; }
        assert bytes == left[4..4 + size] && socket.input == left[4 + size..];
        paquete.AgregarAPaquete(bytes);
      }
    }
  }

  /** recv_package: the opcode and every item up to the first there is not. */
  method RecvPackageList(socket: Socket) returns (ok: bool, codigo: int, items: seq<seq<Byte>>)
    modifies socket
    ensures match RecvPackage(old(socket.input))
      case Exited => !ok
      case Got((c, is_), rest) => ok && codigo == c && items == is_ && socket.input == rest
  {
    hide DecodeInt, Recv, Items;
    var paquete;
    codigo, items := 0, [];
    ok, paquete := RecibirPaquete(socket);
    if !ok { return; }
    codigo := paquete.codigo;
    RecvPacked(old(socket.input));
    items := TomarItems(paquete);
  }

  /** Items until there is none. */
  method TomarItems(paquete: Buffer) returns (items: seq<seq<Byte>>)
    requires Packed(paquete.stream)
    modifies paquete`stream
    ensures items == Items(old(paquete.stream))
  {
    hide DecodeInt;
    ghost var all := Items(paquete.stream);
    items := [];
    var item := paquete.ObtenerSiguienteItem();
    while item.Some?
      invariant Packed(paquete.stream)
      invariant if item.Some? then items + [item.value] + Items(paquete.stream) == all else items == all
      decreases item.Some?, |paquete.stream|
    {
      items := items + [item.value];
      item := paquete.ObtenerSiguienteItem();
    }
  }
}
