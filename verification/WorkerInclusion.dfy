/** Over a whole run of accesses the Worker's pages are the top of the recency stack, READ and
    WRITE are such runs, and a Worker with more frames holds everything one with fewer does. */
module WorkerInclusion {
  import opened StorageModel
  import opened FlatFile
  import opened Recency
  import opened WorkerModel
  import opened WorkerFrames
  import opened WorkerAccess
  import opened WorkerCopies
  import opened WorkerView
  import opened WorkerFaults
  import opened WorkerTransparency
  import opened WorkerBytes
  import opened WorkerInstructions
  import opened WorkerRecency

  lemma AccessSteps(m: Mem, s: seq<PageId>, u: Use)
    requires Coherent(m) && Sound(m) && m.policy == LRU && Recent(m, s) && Reachable(m, u)
    ensures 0 < |m.marcos|
    ensures var r := Access(m, u);
      && r.Ready? && Coherent(r.m) && SameHeaders(m.srv, r.m.srv)
      && Recent(r.m, UsedWithin(s, u.id, |m.marcos|)) && r.m.policy == LRU && |r.m.marcos| == |m.marcos|
  {
    hide Coherent, Sound, Recent, Found, Transparent, ReadChunk, WriteChunk, PaginaEnTabla, View, Measured, SameHeader;
    PaginaCoherent(m, u.id);
    PaginaFound(m, s, u.id);
    var m1 := PaginaEnTabla(m, u.id).m;
    var rest := Others(s, u.id, |m.marcos|);
    TransparentKeepsHeaders(m, m1);
    CoherentOf(m, m1);
    OthersOnTop(s, u.id, |m.marcos|);
    if u.Load? {
      ReadOnTop(m1, u.id, rest);
      ReadChunkTransparent(m1, u.id);
      CoherentOf(m1, ReadChunk(m1, u.id));
    } else {
      WriteOnTop(m1, u.id, u.off, u.text, rest);
      SameWritable(m, m1, u.id);
      WriteChunkView(m1, u.id, u.off, u.text);
    }
  }

  lemma SameWritable(m: Mem, r: Mem, id: PageId)
    requires SameHeaders(m.srv, r.srv) && id.ft in m.srv
    ensures id.ft in r.srv && r.srv[id.ft].estado == m.srv[id.ft].estado
    ensures |r.srv[id.ft].blocks| == |m.srv[id.ft].blocks|
  {
  }

  lemma OthersOnTop(s: seq<PageId>, id: PageId, frames: nat)
    requires 0 < frames
    ensures [id] + Others(s, id, frames) == UsedWithin(s, id, frames)
  {
  }

  lemma PaginaFound(m: Mem, s: seq<PageId>, id: PageId)
    requires Coherent(m) && Sound(m) && m.policy == LRU && Recent(m, s)
    requires Measured(m.tam, m.srv, id.ft) && id.ft in m.srv && id.nro < |m.srv[id.ft].blocks|
    ensures 0 < |m.marcos| && PaginaEnTabla(m, id).Ready?
    ensures var r := PaginaEnTabla(m, id).m;
      && Found(r, id, Others(s, id, |m.marcos|)) && r.policy == LRU && |r.marcos| == |m.marcos|
  {
    hide Coherent, Sound, Recent, Found, Transparent, LoadTable, PageAt, Measured, Linked;
    SoundLinked(m);
    LoadRecent(m, s, id.ft);
    LoadTableCoherent(m, id.ft);
    LoadTableLength(m, id.ft);
    LoadTableSound(m, id.ft);
    var m1 := LoadTable(m, id.ft).m;
    CoherentOf(m, m1);
    PageAtFound(m1, s, id);
  }

  // ---------------------------------------------------------------- runs of accesses

  /** One access after another, as far as each finds its page. */
  function AccessAll(m: Mem, us: seq<Use>): (r: Outcome)
    requires Sound(m) && forall u :: u in us && u.Store? ==> u.off + |u.text| <= m.tam
    ensures r.Ready? ==> Sound(r.m) && r.m.tam == m.tam
    decreases |us|
  {
    hide Sound, Access;
    if us == [] then Ready(m)
    else
      var r := Access(m, us[0]);
      if !r.Ready? then Exit else AccessAll(r.m, us[1..])
  }

  function Ids(us: seq<Use>): (r: seq<PageId>)
    ensures |r| == |us| && forall i :: 0 <= i < |us| ==> r[i] == us[i].id
  {
    seq(|us|, i requires 0 <= i < |us| => us[i].id)
  }

  ghost predicate AllReachable(m: Mem, us: seq<Use>) {
    forall u :: u in us ==> Reachable(m, u)
  }

  lemma StillReachable(m: Mem, r: Mem, us: seq<Use>)
    requires AllReachable(m, us) && SameHeaders(m.srv, r.srv) && r.tam == m.tam
    ensures AllReachable(r, us)
  {
    hide NeededBlocks;
  }

  /** The minimum-time victim is always the page whose last access is oldest: after any run the
      resident pages are the most recently used ones, and their times are in that order. */
  lemma {:induction false} AccessAllRecent(m: Mem, s: seq<PageId>, us: seq<Use>)
    requires Coherent(m) && Sound(m) && m.policy == LRU && Recent(m, s) && AllReachable(m, us)
    ensures 0 < |m.marcos|
    ensures var r := AccessAll(m, us);
      r.Ready? && Coherent(r.m) && Recent(r.m, UsedAllWithin(s, Ids(us), |m.marcos|))
    decreases |us|
  {
    hide Coherent, Sound, Recent, Access, Measured, UsedWithin, SameHeaders;
    FramesExist(m);
    if us != [] {
      assert us[0] in us;
      AccessSteps(m, s, us[0]);
      var m1 := Access(m, us[0]).m;
      StillReachable(m, m1, us);
      AccessAllRecent(m1, UsedWithin(s, us[0].id, |m.marcos|), us[1..]);
      assert Ids(us)[1..] == Ids(us[1..]);
    }
  }

  lemma FramesExist(m: Mem)
    requires Sound(m)
    ensures 0 < |m.marcos|
  {
  }

  /** The stack property: with the same accesses, the pages of `n` frames are among those of more. */
  lemma LruInclusion(m: Mem, w: Mem, s: seq<PageId>, us: seq<Use>)
    requires Coherent(m) && Sound(m) && m.policy == LRU && AllReachable(m, us)
    requires Coherent(w) && Sound(w) && w.policy == LRU && AllReachable(w, us)
    requires |m.marcos| <= |w.marcos| && Recent(m, Take(s, |m.marcos|)) && Recent(w, Take(s, |w.marcos|))
    ensures var (a, b) := (AccessAll(m, us), AccessAll(w, us));
      a.Ready? && b.Ready? && forall id :: Present(a.m, id) ==> Present(b.m, id)
  {
    hide Coherent, Sound, AccessAll, Reachable, Present, Ordered, UsedAllWithin, UsedAll;
    FramesExist(m);
    AccessAllRecent(m, Take(s, |m.marcos|), us);
    AccessAllRecent(w, Take(s, |w.marcos|), us);
    StackInclusion(s, Ids(us), |m.marcos|, |w.marcos|);
    var small := UsedAllWithin(Take(s, |m.marcos|), Ids(us), |m.marcos|);
    var large := UsedAllWithin(Take(s, |w.marcos|), Ids(us), |w.marcos|);
    forall id | id in small
      ensures id in large
    {
      var i :| 0 <= i < |small| && small[i] == id;
      assert large[i] == id;
    }
  }

  lemma EmptyRecent(m: Mem)
    requires forall id :: !Present(m, id)
    ensures Recent(m, [])
  {
  }

  // ---------------------------------------------------------------- READ and WRITE as accesses

  function Loads(ft: FileTag, nro: nat, pages: nat): (us: seq<Use>)
    ensures |us| == pages && forall i :: 0 <= i < pages ==> us[i] == Load(PageId(ft, nro + i))
  {
    seq(pages, i requires 0 <= i < pages => Load(PageId(ft, nro + i)))
  }

  lemma {:induction false} ReadRestAccesses(m: Mem, ft: FileTag, nro: nat, len: nat, pages: nat)
    requires Sound(m)
    ensures ReadRest(m, ft, nro, len, pages).0 == AccessAll(m, Loads(ft, nro, pages))
    decreases pages
  {
    hide Sound, PaginaEnTabla, ReadChunk, FrameData;
    if pages > 0 {
      var us := Loads(ft, nro, pages);
      var id := PageId(ft, nro);
      assert us[1..] == Loads(ft, nro + 1, pages - 1);
      var r := PaginaEnTabla(m, id);
      if r.Ready? {
        ReadRestAccesses(ReadChunk(r.m, id), ft, nro + 1, len - Least(len, m.tam), pages - 1);
      }
    }
  }

  /** A READ that answers bytes has accessed the pages it touches, in order. */
  lemma ReadAccesses(m: Mem, ft: FileTag, base: nat, len: nat)
    requires Sound(m) && 0 < m.tam && ReadAt(m, ft, base, len).Done? && ReadAt(m, ft, base, len).answer.Bytes?
    ensures Ready(ReadAt(m, ft, base, len).m) ==
      AccessAll(m, Loads(ft, NeededBlocks(m.tam, base), PagesTouched(m.tam, Remainder(m.tam, base), len)))
  {
    hide Sound, PaginaEnTabla, ReadChunk, FrameData, NeededBlocks, Remainder, PagesTouched, Leer, Loads, AccessAll;
    var id := PageId(ft, NeededBlocks(m.tam, base));
    var off := Remainder(m.tam, base);
    var m1 := PaginaEnTabla(m, id).m;
    assert ReadAt(m, ft, base, len).m == Leer(m1, id, off, len).0.m;
    LeerAccesses(m, m1, id, off, len);
  }

  lemma LeerAccesses(m: Mem, m1: Mem, id: PageId, off: nat, len: nat)
    requires Sound(m) && PaginaEnTabla(m, id) == Ready(m1) && off < m.tam
    requires Sound(m1) && Present(m1, id) && m1.tam == m.tam && Leer(m1, id, off, len).0.Ready?
    ensures Leer(m1, id, off, len).0 == AccessAll(m, Loads(id.ft, id.nro, PagesTouched(m.tam, off, len)))
  {
    hide Sound, PaginaEnTabla, ReadChunk, FrameData, PagesTouched, PagesAfterFirst, ReadRest, Access, AccessAll;
    var us := Loads(id.ft, id.nro, PagesTouched(m.tam, off, len));
    LoadAccess(m, m1, id);
    if len <= m.tam - off {
      TransferredFits(m.tam, off, len);
      assert us[0] == Load(id) && us[1..] == [];
      AccessOne(m, us);
    } else {
      TransferredSpans(m.tam, off, len);
      var more := PagesAfterFirst(len, m.tam);
      assert us[0] == Load(id) && us[1..] == Loads(id.ft, id.nro + 1, more);
      AccessOne(m, us);
      ReadRestAccesses(ReadChunk(m1, id), id.ft, id.nro + 1, len - (m.tam - off), more);
    }
  }

  lemma LoadAccess(m: Mem, m1: Mem, id: PageId)
    requires Sound(m) && PaginaEnTabla(m, id) == Ready(m1) && Sound(m1) && Present(m1, id)
    ensures Access(m, Load(id)) == Ready(ReadChunk(m1, id))
  {
    hide Sound, PaginaEnTabla, ReadChunk;
  }

  function Stores(ft: FileTag, nro: nat, tam: nat, text: string, pages: nat): (us: seq<Use>)
    ensures |us| == pages && forall i :: 0 <= i < pages ==> us[i].Store? && us[i].id == PageId(ft, nro + i)
    ensures forall u :: u in us ==> u.Store? && u.off + |u.text| <= tam
    decreases pages
  {
    if pages == 0 then []
    else [Store(PageId(ft, nro), 0, First(text, tam))] + Stores(ft, nro + 1, tam, After(text, tam), pages - 1)
  }

  lemma {:induction false} WriteRestAccesses(m: Mem, ft: FileTag, nro: nat, text: string, pages: nat)
    requires Sound(m)
    ensures WriteRest(m, ft, nro, text, pages) == AccessAll(m, Stores(ft, nro, m.tam, text, pages))
    decreases pages
  {
    hide Sound, PaginaEnTabla, WriteChunk, First, After;
    if pages > 0 {
      var us := Stores(ft, nro, m.tam, text, pages);
      var id := PageId(ft, nro);
      assert us[1..] == Stores(ft, nro + 1, m.tam, After(text, m.tam), pages - 1);
      var r := PaginaEnTabla(m, id);
      if r.Ready? {
        WriteRestAccesses(WriteChunk(r.m, id, 0, First(text, m.tam)), ft, nro + 1, After(text, m.tam), pages - 1);
      }
    }
  }

  /** The chunks of a WRITE. */
  function StoresAt(ft: FileTag, nro: nat, off: nat, tam: nat, text: string): (us: seq<Use>)
    requires off < tam
    ensures forall u :: u in us ==> u.Store? && u.off + |u.text| <= tam
  {
    if |text| <= tam - off then [Store(PageId(ft, nro), off, text)]
    else
      [Store(PageId(ft, nro), off, First(text, tam - off))]
        + Stores(ft, nro + 1, tam, After(text, tam - off), PagesAfterFirst(|text|, tam))
  }

  /** A WRITE that succeeds has accessed the pages it touches, in order. */
  lemma WriteAccesses(m: Mem, ft: FileTag, base: nat, text: string)
    requires Sound(m) && 0 < m.tam && WriteAt(m, ft, base, text).Done? && WriteAt(m, ft, base, text).answer.Ok?
    ensures Ready(WriteAt(m, ft, base, text).m) ==
      AccessAll(m, StoresAt(ft, NeededBlocks(m.tam, base), Remainder(m.tam, base), m.tam, text))
  {
    hide Sound, PaginaEnTabla, WriteChunk, NeededBlocks, Remainder, Escribir, StoresAt, AccessAll;
    var id := PageId(ft, NeededBlocks(m.tam, base));
    var off := Remainder(m.tam, base);
    var m1 := PaginaEnTabla(m, id).m;
    assert WriteAt(m, ft, base, text).m == Escribir(m1, id, off, text).m;
    CopyAccesses(m, m1, id, off, text);
  }

  lemma CopyAccesses(m: Mem, m1: Mem, id: PageId, off: nat, text: string)
    requires Sound(m) && PaginaEnTabla(m, id) == Ready(m1) && off < m.tam
    requires Sound(m1) && Present(m1, id) && m1.tam == m.tam && Escribir(m1, id, off, text).Ready?
    ensures Escribir(m1, id, off, text) == AccessAll(m, StoresAt(id.ft, id.nro, off, m.tam, text))
  {
    hide Sound, PaginaEnTabla, WriteChunk, PagesAfterFirst, First, After, WriteRest, Stores, Access, AccessAll;
    var us := StoresAt(id.ft, id.nro, off, m.tam, text);
    if |text| <= m.tam - off {
      assert us[1..] == [];
      StoreAccess(m, m1, id, off, text);
      AccessOne(m, us);
    } else {
      var esp := m.tam - off;
      var more := PagesAfterFirst(|text|, m.tam);
      assert us[1..] == Stores(id.ft, id.nro + 1, m.tam, After(text, esp), more);
      StoreAccess(m, m1, id, off, First(text, esp));
      AccessOne(m, us);
      WriteRestAccesses(WriteChunk(m1, id, off, First(text, esp)), id.ft, id.nro + 1, After(text, esp), more);
    }
  }

  lemma StoreAccess(m: Mem, m1: Mem, id: PageId, off: nat, text: string)
    requires Sound(m) && PaginaEnTabla(m, id) == Ready(m1) && off + |text| <= m.tam
    requires Sound(m1) && Present(m1, id) && m1.tam == m.tam
    ensures Access(m, Store(id, off, text)) == Ready(WriteChunk(m1, id, off, text))
  {
    hide Sound, PaginaEnTabla, WriteChunk;
  }

  /** The first access, and the rest from there. */
  lemma AccessOne(m: Mem, us: seq<Use>)
    requires Sound(m) && us != [] && forall u :: u in us && u.Store? ==> u.off + |u.text| <= m.tam
    ensures var r := Access(m, us[0]);
      r.Ready? ==> AccessAll(m, us) == AccessAll(r.m, us[1..]) && (us[1..] == [] ==> AccessAll(m, us) == r)
  {
    hide Sound, Access;
  }
}
