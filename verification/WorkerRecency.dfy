/** LRU by timestamp is LRU by recency: the pages in memory, from the latest time to the oldest,
    are the top of the stack of pages used, so more frames never hold fewer pages. */
module WorkerRecency {
  import opened StorageModel
  import opened FlatFile
  import opened PageReplacement
  import opened Recency
  import opened WorkerModel
  import opened WorkerFrames
  import opened WorkerAccess
  import opened WorkerView
  import opened WorkerFaults
  import opened WorkerTransparency
  import opened WorkerFlush

  function TimeOf(m: Mem, id: PageId): int {
    if id in m.pages && 0 <= m.pages[id].marco < |m.marcos| then m.marcos[m.pages[id].marco].time else 0
  }

  /** `s` lists pages from the latest access to the oldest. */
  ghost predicate Ordered(m: Mem, s: seq<PageId>) {
    && Distinct(s)
    && (forall i, j :: 0 <= i < j < |s| ==> TimeOf(m, s[i]) > TimeOf(m, s[j]))
    && (forall i :: 0 <= i < |s| ==> TimeOf(m, s[i]) <= m.clock)
  }

  /** `s` lists exactly the resident pages. */
  ghost predicate Recent(m: Mem, s: seq<PageId>) {
    Ordered(m, s) && forall id :: Present(m, id) <==> id in s
  }

  // ---------------------------------------------------------------- counting frames

  function UpTo(n: nat): (r: set<int>)
    ensures forall k :: k in r <==> 0 <= k < n
    ensures |r| == n
  {
    if n == 0 then {} else UpTo(n - 1) + {n - 1}
  }

  function MarcoOf(m: Mem, id: PageId): int {
    if id in m.pages then m.pages[id].marco else -1
  }

  ghost function FramesOf(m: Mem, s: seq<PageId>): (r: set<int>)
    ensures forall f :: f in r <==> exists i :: 0 <= i < |s| && MarcoOf(m, s[i]) == f
  {
    if s == [] then {}
    else
      assert forall i :: 0 < i < |s| ==> s[i] == s[1..][i - 1];
      FramesOf(m, s[1..]) + {MarcoOf(m, s[0])}
  }

  lemma TwoFrames(m: Mem, a: PageId, b: PageId)
    requires Linked(m) && Present(m, a) && Present(m, b) && a != b
    ensures MarcoOf(m, a) != MarcoOf(m, b)
  {
    assert InFrame(m, a) && InFrame(m, b);
  }

  lemma {:induction false} FramesOfCount(m: Mem, s: seq<PageId>)
    requires Linked(m) && Distinct(s) && forall x :: x in s ==> Present(m, x)
    ensures |FramesOf(m, s)| == |s|
  {
    if s != [] {
      var rest := s[1..];
      assert forall i :: 0 <= i < |rest| ==> rest[i] == s[i + 1];
      FramesOfCount(m, rest);
      assert s[0] in s;
      forall i | 0 <= i < |rest|
        ensures MarcoOf(m, rest[i]) != MarcoOf(m, s[0])
      {
        assert rest[i] in s;
        TwoFrames(m, rest[i], s[0]);
      }
    }
  }

  lemma SubsetCount(a: set<int>, b: set<int>)
    requires a <= b
    ensures |a| <= |b| && (|a| == |b| ==> a == b)
  {
    assert |b - a| == |b| - |a| by { SubsetCard(a, b); }
  }

  /** The stack is as high as there are busy frames. */
  lemma StackHeight(m: Mem, s: seq<PageId>)
    requires Linked(m) && Recent(m, s)
    ensures |s| <= |m.marcos| && (AllBusy(m) <==> |s| == |m.marcos|)
  {
    hide Linked, Recent, FramesOf;
    FramesBusy(m, s);
    var frames := FramesOf(m, s);
    SubsetCount(frames, UpTo(|m.marcos|));
    if AllBusy(m) {
      assert frames == UpTo(|m.marcos|);
    } else {
      var f: nat :| f < |m.bits| && !m.bits[f];
      assert f !in frames && f in UpTo(|m.marcos|);
    }
  }

  /** The frames of the stack are the busy ones. */
  lemma FramesBusy(m: Mem, s: seq<PageId>)
    requires Linked(m) && Recent(m, s)
    ensures |m.bits| == |m.marcos| && |FramesOf(m, s)| == |s|
    ensures forall f :: f in FramesOf(m, s) <==> 0 <= f < |m.bits| && m.bits[f]
  {
    FramesOfCount(m, s);
    var frames := FramesOf(m, s);
    forall f | f in frames
      ensures 0 <= f < |m.marcos| && m.bits[f]
    {
      var i :| 0 <= i < |s| && MarcoOf(m, s[i]) == f;
      assert s[i] in s && Present(m, s[i]) && InFrame(m, s[i]);
    }
    hide FramesOf, Ordered;
    forall f | 0 <= f < |m.bits| && m.bits[f]
      ensures f in frames
    {
      assert HoldsPage(m, f);
      var id := m.marcos[f].page;
      assert Present(m, id);
      var i :| 0 <= i < |s| && s[i] == id;
      assert MarcoOf(m, s[i]) == f;
    }
  }

  /** With every frame busy, the frame with the least time holds the bottom of the stack. */
  lemma OldestIsBottom(m: Mem, s: seq<PageId>)
    requires Linked(m) && Recent(m, s) && AllBusy(m)
    ensures |s| > 0 && m.marcos[Oldest(Times(m), 1, 0)].page == s[|s| - 1]
  {
    StackHeight(m, s);
    var f := Oldest(Times(m), 1, 0);
    assert HoldsPage(m, f);
    var id := m.marcos[f].page;
    assert Present(m, id);
    var i :| 0 <= i < |s| && s[i] == id;
    var last := s[|s| - 1];
    assert last in s && Present(m, last);
    assert InFrame(m, last);
    assert Times(m)[f] <= Times(m)[m.pages[last].marco];
    assert TimeOf(m, s[i]) <= TimeOf(m, last);
  }

  // ---------------------------------------------------------------- a page fault

  /** What the fault keeps: the stack without its bottom when memory is full. */
  lemma FreeFrameKeeps(m: Mem, s: seq<PageId>, incoming: FileTag)
    requires Sound(m) && m.policy == LRU && incoming in m.tables && Recent(m, s)
    ensures 0 < |m.marcos|
    ensures var (r, f) := FreeFrame(m, incoming);
      var kept := Take(s, |m.marcos| - 1);
      && (forall x :: Present(r, x) <==> x in kept)
      && (forall x :: Present(r, x) ==> x in m.pages && r.pages[x] == m.pages[x])
      && r.marcos == m.marcos && r.clock == m.clock && r.policy == m.policy
  {
    StackHeight(m, s);
    hide Replace;
    if FirstFree(m.bits, 0).None? {
      assert AllBusy(m);
      ReplaceKeeps(m, s, incoming);
    } else {
      assert !m.bits[FirstFree(m.bits, 0).value];
    }
  }

  lemma ReplaceKeeps(m: Mem, s: seq<PageId>, incoming: FileTag)
    requires Sound(m) && m.policy == LRU && AllBusy(m) && Recent(m, s) && |s| == |m.marcos|
    ensures var r := Replace(m, incoming).0;
      var kept := Take(s, |m.marcos| - 1);
      && (forall x :: Present(r, x) <==> x in kept)
      && (forall x :: Present(r, x) ==> x in m.pages && r.pages[x] == m.pages[x])
      && r.marcos == m.marcos && r.clock == m.clock && r.policy == m.policy
  {
    var f := Oldest(Times(m), 1, 0);
    OldestIsBottom(m, s);
    EvictPages(m, f, incoming);
    EvictShape(m, f, incoming);
    hide Sound, Linked, Evict, TimeOf, VictimWritten;
    BottomGone(s);
  }

  lemma BottomGone<T>(s: seq<T>)
    requires Distinct(s) && |s| > 0
    ensures forall x :: x in Take(s, |s| - 1) <==> x in s && x != s[|s| - 1]
  {
    forall x | x in s && x != s[|s| - 1]
      ensures x in s[..|s| - 1]
    {
      var i :| 0 <= i < |s| && s[i] == x;
      assert s[..|s| - 1][i] == x;
    }
  }

  lemma TakeOrdered(m: Mem, s: seq<PageId>, n: nat)
    requires Ordered(m, s)
    ensures Ordered(m, Take(s, n))
  {
    hide TimeOf;
  }

  /** Pages whose frames and times did not change keep their order. */
  lemma OrderKept(m: Mem, r: Mem, s: seq<PageId>)
    requires Ordered(m, s) && r.clock >= m.clock && forall x :: x in s ==> TimeOf(r, x) == TimeOf(m, x)
    ensures Ordered(r, s)
  {
    hide TimeOf;
  }

  /** After the page is found: it is resident, and the rest of the stack is in order. */
  ghost predicate Found(m: Mem, id: PageId, rest: seq<PageId>) {
    && Ordered(m, rest) && id !in rest
    && forall x :: Present(m, x) <==> x == id || x in rest
  }

  lemma FaultFound(m: Mem, s: seq<PageId>, id: PageId, data: Block)
    requires Sound(m) && m.policy == LRU && Recent(m, s)
    requires HasPage(m, id) && id in m.pages && !m.pages[id].presencia
    ensures var r := BringIn(m, id, data);
      && Found(r, id, Take(s, |m.marcos| - 1)) && r.policy == LRU && |r.marcos| == |m.marcos|
  {
    hide Linked, CountsAhead, DirtyResident, FramesWhole, FreeFrame, Fill, Ordered, KeepsSlack;
    StillAbsent(m, id);
    FreeFrameKeeps(m, s, id.ft);
    var (m1, f) := FreeFrame(m, id.ft);
    var kept := Take(s, |m.marcos| - 1);
    TakeOrdered(m, s, |m.marcos| - 1);
    hide Take;
    assert !Present(m1, id);
    FillSound(m1, id, f, data);
    FillKeeps(m1, id, f, data);
    KeptTimes(m, m1, kept);
    OrderKept(m, Fill(m1, id, f, data), kept);
  }

  lemma KeptTimes(m: Mem, r: Mem, kept: seq<PageId>)
    requires r.marcos == m.marcos && (forall x :: x in kept ==> Present(r, x))
    requires forall x :: Present(r, x) ==> x in m.pages && r.pages[x] == m.pages[x]
    ensures forall x :: x in kept ==> TimeOf(r, x) == TimeOf(m, x)
  {
  }

  lemma FillKeeps(m: Mem, id: PageId, f: nat, data: Block)
    requires f < |m.bits| && f < |m.marcos| && id in m.pages && id.ft in m.tables
    ensures var r := Fill(m, id, f, data);
      && (forall x :: Present(r, x) <==> x == id || Present(m, x))
      && (forall x :: x != id && Present(m, x) ==> TimeOf(r, x) == TimeOf(m, x))
      && r.clock == m.clock && r.policy == m.policy && |r.marcos| == |m.marcos|
  {
  }

  // ---------------------------------------------------------------- an access

  /** One page read, or some bytes of it written. */
  datatype Use = Load(id: PageId) | Store(id: PageId, off: nat, text: string)

  /** The page is found, then touched. */
  function Access(m: Mem, u: Use): (r: Outcome)
    requires Sound(m) && (u.Store? ==> u.off + |u.text| <= m.tam)
    ensures r.Ready? ==> Sound(r.m) && r.m.tam == m.tam
  {
    hide Sound, PaginaEnTabla, ReadChunk, WriteChunk;
    var r := PaginaEnTabla(m, u.id);
    if !r.Ready? then r
    else if u.Load? then Ready(ReadChunk(r.m, u.id))
    else Ready(WriteChunk(r.m, u.id, u.off, u.text))
  }

  /** Touching a found page under LRU gives it the latest time. */
  lemma TouchedOnTop(m: Mem, r: Mem, id: PageId, rest: seq<PageId>)
    requires Linked(m) && Found(m, id, rest)
    requires (forall x :: Present(r, x) <==> Present(m, x)) && r.clock == m.clock + 1 && TimeOf(r, id) == r.clock
    requires forall x :: Present(m, x) && x != id ==> TimeOf(r, x) == TimeOf(m, x)
    ensures Recent(r, [id] + rest)
  {
    OrderKept(m, r, rest);
    hide TimeOf, Linked;
    var s := [id] + rest;
    assert Distinct(s);
    forall i, j | 0 <= i < j < |s|
      ensures TimeOf(r, s[i]) > TimeOf(r, s[j])
    {
      assert s[j] == rest[j - 1] && s[j] in rest;
      assert TimeOf(m, s[j]) <= m.clock;
    }
  }

  lemma TouchTimes(m: Mem, m1: Mem, id: PageId)
    requires Linked(m) && Present(m, id) && m.policy == LRU && m1.policy == LRU && m1.clock == m.clock
    requires |m1.marcos| == |m.marcos| && forall f: nat :: f < |m.marcos| ==> m1.marcos[f].time == m.marcos[f].time
    requires m1.pages.Keys == m.pages.Keys
    requires forall x :: x in m.pages ==>
      m1.pages[x].presencia == m.pages[x].presencia && m1.pages[x].marco == m.pages[x].marco
    ensures var f := FrameOf(m, id);
      f < |m1.marcos| && var r := Touch(m1, f);
      && (forall x :: Present(r, x) <==> Present(m, x)) && r.clock == m.clock + 1 && TimeOf(r, id) == r.clock
      && (forall x :: Present(m, x) && x != id ==> TimeOf(r, x) == TimeOf(m, x))
      && |r.marcos| == |m.marcos| && r.policy == LRU
  {
    var f := FrameOf(m, id);
    forall x | Present(m, x) && x != id
      ensures 0 <= m.pages[x].marco < |m.marcos| && m.pages[x].marco != f
    {
      assert InFrame(m, x);
    }
    hide Linked, FrameOf;
  }

  lemma ReadOnTop(m: Mem, id: PageId, rest: seq<PageId>)
    requires Sound(m) && m.policy == LRU && Found(m, id, rest) && Present(m, id)
    ensures var r := ReadChunk(m, id);
      Recent(r, [id] + rest) && r.policy == LRU && |r.marcos| == |m.marcos|
  {
    hide Linked, CountsAhead, DirtyResident, FramesWhole, KeepsSlack, TimeOf, Touch, FrameOf;
    TouchTimes(m, m.(pages := m.pages[id := m.pages[id].(uso := true)]), id);
    hide Found, Recent;
    TouchedOnTop(m, ReadChunk(m, id), id, rest);
  }

  lemma WriteOnTop(m: Mem, id: PageId, off: nat, text: string, rest: seq<PageId>)
    requires Sound(m) && m.policy == LRU && Found(m, id, rest) && Present(m, id) && off + |text| <= m.tam
    ensures var r := WriteChunk(m, id, off, text);
      Recent(r, [id] + rest) && r.policy == LRU && |r.marcos| == |m.marcos|
  {
    FrameWhole(m, id);
    hide Linked, CountsAhead, DirtyResident, FramesWhole, KeepsSlack, TimeOf, Touch, FrameOf, Splice;
    var f := FrameOf(m, id);
    var m1 := m.(marcos := m.marcos[f := m.marcos[f].(data := Splice(m.marcos[f].data, off, text))],
                 pages := m.pages[id := m.pages[id].(modificado := true, uso := true)]);
    TouchTimes(m, m1, id);
    hide Found, Recent;
    TouchedOnTop(m, WriteChunk(m, id, off, text), id, rest);
  }

  // ---------------------------------------------------------------- finding the page

  /** A page of the file, with sizes that describe blocks. */
  ghost predicate Reachable(m: Mem, u: Use) {
    && Measured(m.tam, m.srv, u.id.ft) && u.id.ft in m.srv && u.id.nro < |m.srv[u.id.ft].blocks|
    && (u.Store? ==> m.srv[u.id.ft].estado == WorkInProgress && u.off + |u.text| <= m.tam)
  }

  lemma LoadRecent(m: Mem, s: seq<PageId>, ft: FileTag)
    requires Linked(m) && Recent(m, s) && ft in m.srv
    ensures var r := LoadTable(m, ft);
      r.Ready? && Recent(r.m, s) && r.m.policy == m.policy && |r.m.marcos| == |m.marcos|
  {
    if ft !in m.tables {
      LoadTablePages(m, ft);
      LoadTableClock(m, ft);
      var r := LoadTable(m, ft).m;
      forall x | x in s
        ensures TimeOf(r, x) == TimeOf(m, x)
      {
        assert Present(m, x);
      }
      hide Linked, LoadTable;
      OrderKept(m, r, s);
    }
  }

  lemma LoadTableClock(m: Mem, ft: FileTag)
    requires Linked(m) && ft in m.srv
    ensures LoadTable(m, ft).Ready? && LoadTable(m, ft).m.clock == m.clock
  {
  }

  /** The stack without the page, cut to what the other frames can hold. */
  function Others(s: seq<PageId>, id: PageId, frames: nat): seq<PageId>
    requires 0 < frames
  {
    Take(Without(s, id), frames - 1)
  }

  lemma PageAtFound(m: Mem, s: seq<PageId>, id: PageId)
    requires Coherent(m) && Sound(m) && HasPage(m, id) && m.policy == LRU && Recent(m, s)
    ensures 0 < |m.marcos| && PageAt(m, id).Ready?
    ensures var r := PageAt(m, id).m;
      && Found(r, id, Others(s, id, |m.marcos|)) && r.policy == LRU && |r.marcos| == |m.marcos|
  {
    hide Sound, Linked, Coherent, BringIn, StoredIn, Ordered, Without, Solicitar, Transparent;
    SoundLinked(m);
    StackHeight(m, s);
    PagesInTables(m);
    FrameExists(m);
    RecentDistinct(m, s);
    WithoutDistinct(s, id);
    if m.pages[id].presencia {
      assert Present(m, id);
      WithoutOrdered(m, s, id);
      OthersWhole(s, id, |m.marcos|);
    } else {
      assert !Present(m, id);
      SolicitarCoherent(m, id);
      FaultFound(m, s, id, Stored(m, id));
      ReadsStored(m, id);
    }
  }

  lemma OthersWhole(s: seq<PageId>, id: PageId, frames: nat)
    requires Distinct(s) && id in s && |s| <= frames
    ensures Others(s, id, frames) == Without(s, id)
    ensures forall x :: x in s <==> x == id || x in Without(s, id)
  {
    WithoutDistinct(s, id);
  }

  lemma FrameExists(m: Mem)
    requires Linked(m)
    ensures 0 < |m.marcos|
  {
  }

  lemma RecentDistinct(m: Mem, s: seq<PageId>)
    requires Recent(m, s)
    ensures Distinct(s)
  {
  }

  lemma ReadsStored(m: Mem, id: PageId)
    requires Coherent(m) && Sound(m) && HasPage(m, id) && id in m.pages && !m.pages[id].presencia
    ensures Solicitar(m, id) == Ready(BringIn(m, id, Stored(m, id)))
  {
    hide BringIn, Sound, CleanAgrees, WholeBlocks;
  }

  lemma {:induction false} WithoutOrdered(m: Mem, s: seq<PageId>, id: PageId)
    requires Ordered(m, s)
    ensures Ordered(m, Without(s, id))
    decreases |s|
  {
    hide TimeOf;
    if s != [] {
      TailOrdered(m, s);
      if s[0] != id {
        WithoutOrdered(m, s[1..], id);
        var w := Without(s[1..], id);
        forall j | 0 <= j < |w|
          ensures w[j] != s[0] && TimeOf(m, s[0]) > TimeOf(m, w[j])
        {
          assert w[j] in s[1..];
        }
      }
    }
  }

  lemma TailOrdered(m: Mem, s: seq<PageId>)
    requires Ordered(m, s) && s != []
    ensures Ordered(m, s[1..]) && forall y :: y in s[1..] ==> y != s[0] && TimeOf(m, s[0]) > TimeOf(m, y)
  {
    hide TimeOf;
    assert forall i :: 0 <= i < |s| - 1 ==> s[1..][i] == s[i + 1];
  }
}
