/** Which page leaves memory, on the pages' own marks and times: what CLOCK-M and LRU choose, where
    the clock's hand is left, and what an access does to the next choice. */
module WorkerPolicy {
  import opened StorageModel
  import opened FlatFile
  import opened PageReplacement
  import opened WorkerModel
  import opened WorkerFrames
  import opened WorkerAccess
  import opened WorkerView
  import opened WorkerRecency

  /** Steps of the clock from the hand to frame `f`. */
  function Distance(n: nat, hand: nat, f: nat): (d: nat)
    requires hand < n && f < n
    ensures d < n
  {
    if f >= hand then f - hand else f + n - hand
  }

  /** The page in a frame. */
  function PageIn(m: Mem, f: nat): Pagina
    requires HoldsPage(m, f)
  {
    m.pages[m.marcos[f].page]
  }

  /** Every frame has its page. */
  ghost predicate Full(m: Mem) {
    && 0 < |m.marcos| == |m.bits| && m.hand < |m.marcos|
    && forall f: nat :: f < |m.marcos| ==> m.bits[f] && HoldsPage(m, f)
  }

  lemma BusyIsFull(m: Mem)
    requires Linked(m) && AllBusy(m)
    ensures Full(m)
  {
  }

  // ---------------------------------------------------------------- the nearest page of a kind

  datatype Kind = UnusedClean | UnusedDirty | AnyClean | Whatever

  predicate IsOf(p: Pagina, k: Kind) {
    match k
    case UnusedClean => !p.uso && !p.modificado
    case UnusedDirty => !p.uso && p.modificado
    case AnyClean => !p.modificado
    case Whatever => true
  }

  ghost predicate Has(m: Mem, k: Kind)
    requires Full(m)
  {
    exists f: nat :: f < |m.marcos| && IsOf(PageIn(m, f), k)
  }

  /** Frame `v` has a page of the kind, and no frame nearer to the hand has one. */
  ghost predicate Nearest(m: Mem, v: nat, k: Kind)
    requires Full(m)
  {
    && v < |m.marcos| && IsOf(PageIn(m, v), k)
    && forall f: nat :: f < |m.marcos| && IsOf(PageIn(m, f), k) ==>
         Distance(|m.marcos|, m.hand, v) <= Distance(|m.marcos|, m.hand, f)
  }

  /** What the search looks for: an unused clean page, or else an unused dirty one, or else a clean
      one, or else the page under the hand. */
  ghost function Sought(m: Mem): Kind
    requires Full(m)
  {
    if Has(m, UnusedClean) then UnusedClean
    else if Has(m, UnusedDirty) then UnusedDirty
    else if Has(m, AnyClean) then AnyClean
    else Whatever
  }

  /** The frames whose use bit the search clears on its way to `v`. */
  ghost predicate Passed(m: Mem, v: nat, f: nat)
    requires Full(m) && v < |m.marcos| && f < |m.marcos|
  {
    match Sought(m)
    case UnusedClean => false
    case UnusedDirty => Distance(|m.marcos|, m.hand, f) < Distance(|m.marcos|, m.hand, v)
    case _ => true
  }

  // ---------------------------------------------------------------- from marks to pages

  lemma MarksArePages(m: Mem)
    requires Full(m)
    ensures |Marks(m)| == |m.marcos|
    ensures forall f: nat :: f < |m.marcos| ==> Marks(m)[f] == Mark(PageIn(m, f).uso, PageIn(m, f).modificado)
  {
    forall f: nat | f < |m.marcos|
      ensures Marks(m)[f] == Mark(PageIn(m, f).uso, PageIn(m, f).modificado)
    {
      assert HoldsPage(m, f);
    }
  }

  lemma AtDistance(n: nat, hand: nat, f: nat)
    requires hand < n && f < n
    ensures At(n, hand, Distance(n, hand, f)) == f
    ensures forall j: nat :: j < n && At(n, hand, j) == f ==> j == Distance(n, hand, f)
  {
  }

  lemma FirstIsNearest(m: Mem, v: nat, p: Mark -> bool, k: Kind)
    requires Full(m) && FirstFrom(Marks(m), m.hand, v, p)
    requires forall x: Pagina :: p(Mark(x.uso, x.modificado)) <==> IsOf(x, k)
    ensures Nearest(m, v, k)
  {
    var (n, marks) := (|m.marcos|, Marks(m));
    MarksArePages(m);
    hide Marks;
    var j :| 0 <= j < n && v == At(n, m.hand, j) && p(marks[v])
      && forall i :: 0 <= i < j ==> !p(marks[At(n, m.hand, i)]);
    AtDistance(n, m.hand, v);
    forall f: nat | f < n && IsOf(PageIn(m, f), k)
      ensures Distance(n, m.hand, v) <= Distance(n, m.hand, f)
    {
      AtDistance(n, m.hand, f);
      assert p(marks[f]);
    }
  }

  lemma ClearedAt(marks: seq<Mark>, hand: nat, k: nat, f: nat)
    requires hand < |marks| && k <= |marks| && f < |marks|
    ensures Cleared(marks, hand, k)[f] ==
      if Distance(|marks|, hand, f) < k then marks[f].(uso := false) else marks[f]
  {
    AtDistance(|marks|, hand, f);
    var j := Distance(|marks|, hand, f);
    assert At(|marks|, hand, j) == f;
  }

  lemma MarksOf(m: Mem, k: Kind, p: Mark -> bool)
    requires Full(m) && forall x: Pagina :: p(Mark(x.uso, x.modificado)) <==> IsOf(x, k)
    ensures (exists f :: 0 <= f < |Marks(m)| && p(Marks(m)[f])) <==> Has(m, k)
  {
    MarksArePages(m);
    var marks := Marks(m);
    hide Marks;
    if Has(m, k) {
      var f: nat :| f < |m.marcos| && IsOf(PageIn(m, f), k);
      assert p(marks[f]);
    }
    if f :| 0 <= f < |marks| && p(marks[f]) {
      assert IsOf(PageIn(m, f), k);
    }
  }

  /** The search's victim and the use bits it leaves, on the pages. */
  lemma ScanIs(m: Mem)
    requires Full(m)
    ensures var s := ClockM(Marks(m), m.hand);
      && Nearest(m, s.victim, Sought(m)) && |s.marks| == |m.marcos|
      && (forall f: nat :: f < |m.marcos| ==> s.marks[f].uso == (PageIn(m, f).uso && !Passed(m, s.victim, f)))
  {
    hide Marks, ClockM, Cleared, FirstFrom;
    var (n, marks) := (|m.marcos|, Marks(m));
    var s := ClockM(marks, m.hand);
    ClockMChoice(marks, m.hand);
    MarksArePages(m);
    MarksOf(m, UnusedClean, PageReplacement.CleanUnused);
    MarksOf(m, UnusedDirty, DirtyUnused);
    MarksOf(m, AnyClean, Clean);
    if Has(m, UnusedClean) {
      FirstIsNearest(m, s.victim, PageReplacement.CleanUnused, UnusedClean);
    } else if Has(m, UnusedDirty) {
      FirstIsNearest(m, s.victim, DirtyUnused, UnusedDirty);
      var j :| 0 <= j < n && s.victim == At(n, m.hand, j) && s.marks == Cleared(marks, m.hand, j);
      PassedUp(m, s.victim, j, s.marks);
    } else if Has(m, AnyClean) {
      assert exists f :: 0 <= f < n && !marks[f].modificado;
      FirstIsNearest(m, s.victim, Clean, AnyClean);
    } else {
      assert forall f :: 0 <= f < n ==> marks[f].modificado;
    }
  }

  lemma PassedUp(m: Mem, v: nat, j: nat, marks: seq<Mark>)
    requires Full(m) && Sought(m) == UnusedDirty
    requires j < |m.marcos| && v == At(|m.marcos|, m.hand, j) && marks == Cleared(Marks(m), m.hand, j)
    ensures |marks| == |m.marcos|
    ensures forall f: nat :: f < |m.marcos| ==> marks[f].uso == (PageIn(m, f).uso && !Passed(m, v, f))
  {
    hide Marks, Cleared, Sought;
    MarksArePages(m);
    AtDistance(|m.marcos|, m.hand, v);
    forall f: nat | f < |m.marcos|
      ensures marks[f].uso == (PageIn(m, f).uso && !Passed(m, v, f))
    {
      ClearedAt(Marks(m), m.hand, j, f);
    }
  }

  // ---------------------------------------------------------------- a replacement

  /** One step of the clock. */
  function NextFrame(n: nat, f: nat): nat
    requires f < n
  {
    if f + 1 < n then f + 1 else 0
  }

  /** Memory `r` is `m` without the page of frame `v`, the use bits of the frames passed cleared. */
  ghost predicate Evicted(m: Mem, v: nat, r: Mem)
    requires Full(m)
  {
    && v < |m.marcos| && r.bits == m.bits[v := false] && r.marcos == m.marcos
    && var gone := m.marcos[v].page;
       && (forall id :: Present(r, id) <==> Present(m, id) && id != gone)
       && (gone in r.pages ==> !r.pages[gone].uso && !r.pages[gone].modificado)
       && (forall f: nat :: f < |m.marcos| && f != v && m.marcos[f].page in r.pages ==>
             r.pages[m.marcos[f].page] == PageIn(m, f).(uso := PageIn(m, f).uso && !Passed(m, v, f)))
  }

  /** algoritmo_CLOCK_M: whom it evicts, the use bits it leaves, and where the hand stops. */
  lemma ClockReplaces(m: Mem, incoming: FileTag)
    requires Sound(m) && AllBusy(m) && m.policy == ClockMod
    ensures Full(m)
    ensures var (r, v) := Replace(m, incoming);
      Nearest(m, v, Sought(m)) && Evicted(m, v, r) && r.hand == NextFrame(|m.marcos|, v)
  {
    hide ClockM, Marks, Nearest, Sought, Passed, Evict, SetUse, Sound, Linked, Evicted, Full;
    SoundLinked(m);
    BusyIsFull(m);
    ScanIs(m);
    var s := ClockM(Marks(m), m.hand);
    VictimHeld(m, s.victim);
    ClockEvicts(m, s.marks, s.victim, incoming);
    HandOnly(m, s.victim, Evict(SetUse(m, s.marks), s.victim, incoming), NextFrame(|m.marcos|, s.victim));
  }

  lemma VictimHeld(m: Mem, v: nat)
    requires Full(m) && Nearest(m, v, Sought(m))
    ensures v < |m.marcos| == |m.bits| && m.bits[v] && m.hand < |m.marcos|
  {
  }

  lemma HandOnly(m: Mem, v: nat, r: Mem, hand: nat)
    requires Full(m) && Evicted(m, v, r)
    ensures Evicted(m, v, r.(hand := hand))
  {
    assert forall id :: Present(r.(hand := hand), id) <==> Present(r, id);
  }

  lemma ClockEvicts(m: Mem, marks: seq<Mark>, v: nat, incoming: FileTag)
    requires Sound(m) && Full(m) && m.policy == ClockMod && |marks| == |m.marcos| && v < |m.bits| && m.bits[v]
    requires forall f: nat :: f < |m.marcos| ==> marks[f].uso == (PageIn(m, f).uso && !Passed(m, v, f))
    ensures Linked(m) && Sound(SetUse(m, marks)) && SetUse(m, marks).bits == m.bits
    ensures Evicted(m, v, Evict(SetUse(m, marks), v, incoming))
  {
    hide Passed, Evict, SetUse, Sound, Linked;
    SoundLinked(m);
    var m1 := SetUse(m, marks);
    SetUseSound(m, marks);
    SoundLinked(m1);
    MarkedPages(m, marks);
    EvictPages(m1, v, incoming);
    EvictShape(m1, v, incoming);
    EvictedMarks(m1, v, incoming);
    var r := Evict(m1, v, incoming);
    forall f: nat | f < |m.marcos| && f != v && m.marcos[f].page in r.pages
      ensures r.pages[m.marcos[f].page] == PageIn(m, f).(uso := PageIn(m, f).uso && !Passed(m, v, f))
    {
      assert HoldsPage(m, f) && HoldsPage(m, v);
    }
  }

  lemma MarkedPages(m: Mem, marks: seq<Mark>)
    requires Linked(m) && Full(m) && |marks| == |m.marcos|
    ensures var m1 := SetUse(m, marks);
      && m1.bits == m.bits && m1.marcos == m.marcos && m1.hand == m.hand && m1.policy == m.policy
      && m1.pages.Keys == m.pages.Keys
      && (forall id :: Present(m1, id) <==> Present(m, id))
      && forall f: nat :: f < |m.marcos| ==>
           HoldsPage(m, f) && m1.pages[m.marcos[f].page] == PageIn(m, f).(uso := marks[f].uso)
  {
    forall f: nat | f < |m.marcos|
      ensures HoldsPage(m, f) && SetUse(m, marks).pages[m.marcos[f].page] == PageIn(m, f).(uso := marks[f].uso)
    {
      assert HoldsPage(m, f);
    }
  }

  /** The page that leaves is clean, and unused under CLOCK-M. */
  lemma EvictedMarks(m: Mem, f: nat, incoming: FileTag)
    requires Linked(m) && f < |m.bits| && m.bits[f]
    ensures HoldsPage(m, f)
    ensures var (r, gone) := (Evict(m, f, incoming), m.marcos[f].page);
      gone in r.pages ==> !r.pages[gone].modificado && (m.policy == ClockMod ==> !r.pages[gone].uso)
  {
    EvictIs(m, f, incoming);
    hide Linked;
  }

  // ---------------------------------------------------------------- where the hand is left

  /** The frame just freed is the last the next search reaches: every other is nearer. */
  lemma HandBeyond(m: Mem, incoming: FileTag)
    requires Sound(m) && AllBusy(m) && m.policy == ClockMod
    ensures var ((r, v), n) := (Replace(m, incoming), |m.marcos|);
      && r.hand < n && v < n && |r.marcos| == n && Distance(n, r.hand, v) == n - 1
      && forall f: nat :: f < n && f != v ==> Distance(n, r.hand, f) < n - 1
  {
    hide Sound, AllBusy, Replace, Nearest, Sought, Full;
    ClockReplaces(m, incoming);
    SoundLinked(m);
    BusyIsFull(m);
    VictimHeld(m, Replace(m, incoming).1);
    hide Evicted;
    ReplaceShape(m, incoming);
  }

  // ---------------------------------------------------------------- an access

  /** What a copy to or from a page does to pages: the one accessed is in use, and modified by a
      write; no other changes. */
  ghost predicate Accessed(m: Mem, r: Mem, id: PageId, written: bool)
    requires id in m.pages
  {
    && Present(r, id) && r.pages[id].uso && r.pages[id].modificado == (written || m.pages[id].modificado)
    && r.pages[id].marco == m.pages[id].marco && r.pages.Keys == m.pages.Keys
    && (forall x :: x in m.pages && x != id ==> r.pages[x] == m.pages[x])
    && r.bits == m.bits && r.tables == m.tables && r.hand == m.hand && r.policy == m.policy
    && |r.marcos| == |m.marcos| && forall f: nat :: f < |m.marcos| ==> r.marcos[f].page == m.marcos[f].page
  }

  /** Under either policy a READ's copy marks the page used. */
  lemma ReadMarks(m: Mem, id: PageId)
    requires Sound(m) && Present(m, id)
    ensures Accessed(m, ReadChunk(m, id), id, false)
  {
    hide Sound, KeepsSlack, Linked, FrameOf;
    SoundLinked(m);
  }

  /** And a WRITE's marks it used and modified. */
  lemma WriteMarks(m: Mem, id: PageId, off: nat, text: string)
    requires Sound(m) && Present(m, id) && off + |text| <= m.tam
    ensures Accessed(m, WriteChunk(m, id, off, text), id, true)
  {
    hide Sound, KeepsSlack, Linked, FrameOf, Splice;
    SoundLinked(m);
    FrameWhole(m, id);
  }

  /** The clock takes no page in use while some page is not. */
  lemma UsedIsSpared(m: Mem, incoming: FileTag, id: PageId)
    requires Sound(m) && AllBusy(m) && m.policy == ClockMod && Present(m, id) && m.pages[id].uso
    requires exists x :: Present(m, x) && !m.pages[x].uso
    ensures Present(Replace(m, incoming).0, id)
  {
    ClockReplaces(m, incoming);
    var v := Replace(m, incoming).1;
    var x :| Present(m, x) && !m.pages[x].uso;
    UnusedSought(m, x);
    hide Replace;
    assert m.marcos[v].page != id;
  }

  lemma UnusedSought(m: Mem, x: PageId)
    requires Linked(m) && Full(m) && Present(m, x) && !m.pages[x].uso
    ensures Sought(m) == UnusedClean || Sought(m) == UnusedDirty
  {
    assert InFrame(m, x);
    var f := m.pages[x].marco;
    assert PageIn(m, f) == m.pages[x];
    assert IsOf(PageIn(m, f), UnusedClean) || IsOf(PageIn(m, f), UnusedDirty);
  }

  /** So a page just accessed, and any accessed since the bits were last cleared, stays through the
      next replacement if some page has not been. */
  lemma AccessedIsSpared(m: Mem, r: Mem, id: PageId, written: bool, incoming: FileTag)
    requires Sound(r) && AllBusy(r) && r.policy == ClockMod && id in m.pages && Accessed(m, r, id, written)
    requires exists x :: Present(r, x) && !r.pages[x].uso
    ensures Present(Replace(r, incoming).0, id)
    ensures forall y :: Present(m, y) && m.pages[y].uso ==> Present(Replace(r, incoming).0, y)
  {
    hide Sound, AllBusy, Replace;
    SoundLinked(r);
    UsedIsSpared(r, incoming, id);
    forall y | Present(m, y) && m.pages[y].uso
      ensures Present(Replace(r, incoming).0, y)
    {
      UsedIsSpared(r, incoming, y);
    }
  }

  // ---------------------------------------------------------------- two faults in a row

  /** Every page in memory is used and clean. */
  ghost predicate AllUsedClean(m: Mem)
    requires Full(m)
  {
    forall f: nat :: f < |m.marcos| ==> PageIn(m, f).uso && !PageIn(m, f).modificado
  }

  lemma NothingUnused(m: Mem)
    requires Full(m) && AllUsedClean(m)
    ensures Sought(m) == AnyClean && forall v: nat :: Nearest(m, v, AnyClean) ==> v == m.hand
  {
    assert IsOf(PageIn(m, m.hand), AnyClean);
    assert Distance(|m.marcos|, m.hand, m.hand) == 0;
  }

  /** All pages used and clean: the first victim is under the hand, and every other page is left
      unused. */
  lemma FirstVictim(m: Mem, incoming: FileTag)
    requires Sound(m) && AllBusy(m) && m.policy == ClockMod && Full(m) && AllUsedClean(m)
    ensures var (r, v) := Replace(m, incoming);
      && v == m.hand && r.hand == NextFrame(|m.marcos|, v)
      && (forall f: nat :: f < |m.marcos| && f != v && m.marcos[f].page in r.pages ==>
            !r.pages[m.marcos[f].page].uso && !r.pages[m.marcos[f].page].modificado)
      && Evicted(m, v, r)
  {
    hide Sound, AllBusy, Replace;
    SoundLinked(m);
    NothingUnused(m);
    ClockReplaces(m, incoming);
    var (r, v) := Replace(m, incoming);
    hide Sought, Nearest;
    forall f: nat | f < |m.marcos| && f != v && m.marcos[f].page in r.pages
      ensures !r.pages[m.marcos[f].page].uso && !r.pages[m.marcos[f].page].modificado
    {
      assert Passed(m, v, f);
    }
  }

  /** Frame `v` alone is in use, and the other pages are clean: the page after the hand goes, or
      `v`'s own when there is no other frame. */
  lemma NextVictim(m: Mem, v: nat, incoming: FileTag)
    requires Sound(m) && AllBusy(m) && m.policy == ClockMod && Full(m) && v < |m.marcos|
    requires m.hand == NextFrame(|m.marcos|, v)
    requires forall f: nat :: f < |m.marcos| && f != v ==> !PageIn(m, f).uso && !PageIn(m, f).modificado
    ensures Replace(m, incoming).1 == m.hand
  {
    hide Sound, AllBusy, Replace;
    ClockReplaces(m, incoming);
    assert Distance(|m.marcos|, m.hand, m.hand) == 0;
    if |m.marcos| > 1 {
      assert IsOf(PageIn(m, m.hand), UnusedClean);
      assert Has(m, UnusedClean);
    }
  }

  /** A page faulted in takes the frame the replacement freed. */
  lemma FaultTakes(m: Mem, a: PageId, data: Block)
    requires Sound(m) && AllBusy(m) && HasPage(m, a) && a in m.pages && !m.pages[a].presencia
    ensures var ((z, v), r) := (Replace(m, a.ft), BringIn(m, a, data));
      && v < |z.marcos| && v < |z.bits| && a in z.pages && a.ft in z.tables && r == Fill(z, a, v, data)
  {
    SoundLinked(m);
    StillAbsent(m, a);
    NoneFree(m);
    ReplaceShape(m, a.ft);
    hide Sound, Linked, Replace, Fill, KeepsSlack;
  }

  lemma NoneFree(m: Mem)
    requires AllBusy(m)
    ensures FirstFree(m.bits, 0).None?
  {
  }

  /** The memory after the first fault and the access that caused it. */
  lemma FilledFrames(m: Mem, z: Mem, v: nat, a: PageId, data: Block, r: Mem, written: bool)
    requires Full(m) && AllUsedClean(m) && Evicted(m, v, z) && a in z.pages && a.ft in z.tables && !Present(m, a)
    requires forall f: nat :: f < |m.marcos| && f != v && m.marcos[f].page in z.pages ==>
      !z.pages[m.marcos[f].page].uso && !z.pages[m.marcos[f].page].modificado
    requires v < |z.bits| && Accessed(Fill(z, a, v, data), r, a, written) && Linked(r)
    ensures AllBusy(r) && Full(r) && r.marcos[v].page == a && |r.marcos| == |m.marcos|
    ensures forall f: nat :: f < |r.marcos| && f != v ==> !PageIn(r, f).uso && !PageIn(r, f).modificado
  {
    hide Linked;
    forall f: nat | f < |r.bits|
      ensures r.bits[f]
    {
    }
    BusyIsFull(r);
    forall f: nat | f < |r.marcos| && f != v
      ensures !PageIn(r, f).uso && !PageIn(r, f).modificado
    {
      assert HoldsPage(r, f) && HoldsPage(m, f);
      assert r.marcos[f].page == m.marcos[f].page;
    }
  }

  /** Two faults in a row with all pages used and clean: the second victim is in the frame after the
      first's, cyclically. */
  lemma TwoFaults(m: Mem, a: PageId, data: Block, r: Mem, written: bool, incoming: FileTag)
    requires Sound(m) && AllBusy(m) && m.policy == ClockMod && Full(m) && AllUsedClean(m)
    requires HasPage(m, a) && a in m.pages && !m.pages[a].presencia
    requires Sound(r) && Accessed(BringIn(m, a, data), r, a, written)
    ensures m.hand < |r.marcos| == |m.marcos| && r.marcos[m.hand].page == a && AllBusy(r)
    ensures Replace(r, incoming).1 == NextFrame(|m.marcos|, m.hand)
  {
    hide Sound, AllBusy, Replace, Fill, Linked, Evicted, Full, AllUsedClean, Accessed, HasPage, BringIn;
    FaultTakes(m, a, data);
    FirstVictim(m, a.ft);
    SoundLinked(r);
    SoundLinked(m);
    ReplaceShape(m, a.ft);
    HandInside(m);
    var z := Replace(m, a.ft).0;
    FilledFrames(m, z, m.hand, a, data, r, written);
    AccessedHand(z, m.hand, a, data, r, written);
    NextVictim(r, m.hand, incoming);
  }

  lemma HandInside(m: Mem)
    requires Full(m)
    ensures m.hand < |m.marcos|
  {
  }

  lemma AccessedHand(z: Mem, v: nat, a: PageId, data: Block, r: Mem, written: bool)
    requires v < |z.marcos| && v < |z.bits| && a in z.pages && a.ft in z.tables
    requires Accessed(Fill(z, a, v, data), r, a, written)
    ensures r.hand == z.hand && r.policy == z.policy
  {
  }

  // ---------------------------------------------------------------- a whole access

  /** Under either policy, after a READ or a WRITE of a page it is in memory and in use. */
  lemma AccessUses(m: Mem, u: Use)
    requires Sound(m) && (u.Store? ==> u.off + |u.text| <= m.tam) && Access(m, u).Ready?
    ensures var r := Access(m, u).m;
      Present(r, u.id) && r.pages[u.id].uso && (u.Store? ==> r.pages[u.id].modificado)
  {
    hide Sound, PaginaEnTabla, ReadChunk, WriteChunk;
    var m1 := PaginaEnTabla(m, u.id).m;
    if u.Load? {
      ReadMarks(m1, u.id);
    } else {
      WriteMarks(m1, u.id, u.off, u.text);
    }
  }

  // ---------------------------------------------------------------- the other policy

  /** algoritmo_LRU: the first frame among those least recently accessed; no page's marks change but
      the victim's, and the hand stays. */
  lemma LruReplaces(m: Mem, incoming: FileTag)
    requires Sound(m) && AllBusy(m) && m.policy == LRU
    ensures Linked(m)
    ensures var (r, v) := Replace(m, incoming);
      && v < |m.marcos|
      && (forall f :: 0 <= f < |m.marcos| ==> m.marcos[v].time <= m.marcos[f].time)
      && (forall f :: 0 <= f < v ==> m.marcos[v].time < m.marcos[f].time)
      && (forall id :: Present(r, id) <==> Present(m, id) && id != m.marcos[v].page)
      && (forall id :: Present(r, id) ==> r.pages[id] == m.pages[id])
      && r.marcos == m.marcos && r.bits == m.bits[v := false] && r.hand == m.hand
  {
    SoundLinked(m);
    var v := Oldest(Times(m), 1, 0);
    hide Sound, Linked, Evict;
    EvictPages(m, v, incoming);
    EvictShape(m, v, incoming);
  }

  /** A fault uses the first free frame, and replaces a page only when there is none. */
  lemma FirstFreeFrame(m: Mem, incoming: FileTag)
    requires Sound(m) && incoming in m.tables
    ensures var (z, f) := FreeFrame(m, incoming);
      if AllBusy(m) then Linked(m) && (z, f) == Replace(m, incoming)
      else z == m && f < |m.bits| && !m.bits[f] && forall g :: 0 <= g < f ==> m.bits[g]
  {
    SoundLinked(m);
    FirstBit(m.bits, 0);
    hide Sound, Linked, Replace;
  }

  lemma {:induction false} FirstBit(bits: seq<bool>, i: nat)
    requires forall g :: 0 <= g < i && g < |bits| ==> bits[g]
    ensures match FirstFree(bits, i)
      case None => forall g :: 0 <= g < |bits| ==> bits[g]
      case Some(f) => f < |bits| && !bits[f] && forall g :: 0 <= g < f ==> bits[g]
    decreases |bits| - i
  {
    if i < |bits| && bits[i] { FirstBit(bits, i + 1); }
  }

  // ---------------------------------------------------------------- the victim's table

  /** The victim's file loses its table exactly when that was its last page in memory, its counter
      counted no other, and it is not the file the new page is of. */
  lemma TableGoes(m: Mem, f: nat, incoming: FileTag)
    requires Sound(m) && f < |m.bits| && m.bits[f]
    ensures HoldsPage(m, f)
    ensures var (r, ft) := (Evict(m, f, incoming), m.marcos[f].page.ft);
      && ft in m.tables
      && (ft !in r.tables <==> ft != incoming && |Resident(m, ft)| == 1 && Slack(m, ft) == 0)
      && (forall g :: g != ft ==> (g in r.tables <==> g in m.tables) && (g in m.tables ==> r.tables[g] == m.tables[g]))
      && (ft in r.tables ==> r.tables[ft] == Tabla(m.tables[ft].cantidad - 1, m.tables[ft].size))
  {
    var id := m.marcos[f].page;
    EvictIs(m, f, incoming);
    hide Evict, Linked, DirtyResident;
    assert Present(m, id) && id in Resident(m, id.ft);
    SubsetCard({id}, Resident(m, id.ft));
    assert Slack(m, id.ft) >= 0;
    hide HoldsPage, CountsAhead, Resident;
  }
}
