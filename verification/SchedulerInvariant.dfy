/** What every step of the scheduler keeps: each query in one place, the ready list sorted, queries
    in execution and busy Workers paired, semaphores that count exactly what they announce. */
module SchedulerInvariant {
  import opened StorageModel
  import opened Recency
  import opened SchedulerModel

  // ---------------------------------------------------------------- the invariant

  /** A query is in one list at most, and known. */
  ghost predicate Listed(s: State) {
    && Distinct(s.ready) && Distinct(s.exec)
    && (forall q :: q in s.ready ==> q !in s.exec && q in s.prio)
    && (forall q :: q in s.exec ==> q in s.prio)
    && (s.disp.EnMano? ==> s.disp.query !in s.ready && s.disp.query !in s.exec && s.disp.query in s.prio)
  }

  ghost predicate Somewhere(s: State, q: nat) {
    q in s.ready || q in s.exec || s.disp == EnMano(q)
  }

  /** A query whose Worker reported an error has ended, is in no list, and no other such Worker
      has it. */
  ghost predicate Errored(s: State) {
    && (forall q :: q in s.acabadas ==> q in s.prio)
    && (forall w :: 0 <= w < |s.workers| && s.workers[w].ConError? ==>
          s.workers[w].query in s.acabadas && !Somewhere(s, s.workers[w].query))
    && (forall w, x :: 0 <= w < x < |s.workers| && s.workers[w].ConError? && s.workers[x].ConError? ==>
          s.workers[w].query != s.workers[x].query)
  }

  ghost predicate Priorities(s: State) {
    && (forall q :: q in s.prio ==> s.prio[q] >= 0)
    && (s.plan == PRIORIDADES ==> Sorted(s.prio, s.ready))
  }

  /** Queries in execution and busy Workers, one to one. */
  ghost predicate Paired(s: State) {
    && (forall w :: 0 <= w < |s.workers| && s.workers[w].Atendiendo? ==> s.workers[w].query in s.exec)
    && (forall q :: q in s.exec ==> exists w :: 0 <= w < |s.workers| && Runs(s.workers[w], q))
    && (forall w, x :: 0 <= w < x < |s.workers| && s.workers[w].Atendiendo? && s.workers[x].Atendiendo? ==>
          s.workers[w].query != s.workers[x].query)
  }

  function HowManyFree(workers: seq<Worker>): nat {
    if workers == [] then 0 else (if workers[0] == Libre then 1 else 0) + HowManyFree(workers[1..])
  }

  /** Every ready query is announced by one token, in the semaphore or in somebody's hands; so is
      every free Worker. */
  ghost predicate Tokens(s: State) {
    && |s.ready| == s.semReady + (if s.llegada != Nadie then 1 else 0)
         + (if s.disp.ConReady? || s.disp.ConAmbos? then 1 else 0)
    && HowManyFree(s.workers) == s.semWorkers + s.avisos + (if s.disp.ConAmbos? || s.disp.EnMano? then 1 else 0)
  }

  /** Some ready query would run before one of priority `p`. */
  ghost predicate BetterReady(s: State, p: int) {
    exists q :: q in s.ready && P(s.prio, q) < p
  }

  /** A Worker is told to interrupt exactly while check_prior waits for it, for the sake of a
      better query that is ready; that query, or a better one, is the next to be dispatched. */
  ghost predicate Preempting(s: State) {
    && (forall w :: 0 <= w < |s.workers| && Told(s.workers[w]) ==> s.check.Desalojando? && s.check.worker == w)
    && (s.check.Desalojando? ==>
          && s.check.worker < |s.workers| && Told(s.workers[s.check.worker]) && !s.disp.EnMano?
          && BetterReady(s, P(s.prio, s.workers[s.check.worker].query)))
    && (s.vacante.Some? ==>
          if s.disp.EnMano? then P(s.prio, s.disp.query) < s.vacante.value else BetterReady(s, s.vacante.value))
  }

  /** signal_asign is set while somebody is in check_prior's waits; without a stale token or a
      dispatcher about to post one, that is until the vacated place is taken. */
  ghost predicate Signalling(s: State) {
    && (s.signalAsign <==> s.check != Abierto)
    && (s.check.Asignando? && s.semAsign == 0 && s.disp != Emparejado ==> s.vacante.Some?)
  }

  ghost predicate Live(s: State, q: nat) {
    || (exists i :: 0 <= i < |s.aging| && s.aging[i].query == q)
    || (s.check != Abierto && s.check.caller == DeEdad(q))
  }

  /** One aging thread a query, and none asleep over a priority of 0. */
  ghost predicate AgingSound(s: State) {
    && (forall i, j :: 0 <= i < j < |s.aging| ==> s.aging[i].query != s.aging[j].query)
    && (forall i :: 0 <= i < |s.aging| ==> s.aging[i].query in s.prio)
    && (forall i :: 0 <= i < |s.aging| && s.aging[i].Dormido? ==> P(s.prio, s.aging[i].query) > 0)
    && (s.check != Abierto && s.check.caller.DeEdad? ==>
          forall i :: 0 <= i < |s.aging| ==> s.aging[i].query != s.check.caller.query)
    && (s.check != Abierto && s.check.caller.DeEdad? ==> s.check.caller.query in s.prio)
  }

  ghost predicate Callers(s: State) {
    && (s.llegada.EnConsulta? <==> s.check != Abierto && s.check.caller.DeLlegada?)
    && (s.llegada.EnConsulta? ==> s.check.caller == DeLlegada(s.llegada.query))
    && (s.llegada != Nadie ==> s.llegada.query in s.prio)
    && (s.plan == FIFO ==> s.aging == [] && s.check == Abierto && s.vacante == None && !s.llegada.EnLista?)
  }

  ghost predicate Inv(s: State) {
    && Listed(s) && Priorities(s) && Paired(s) && Errored(s) && Tokens(s)
    && Preempting(s) && Signalling(s) && AgingSound(s) && Callers(s)
  }

  /** The hypotheses on the outside: priorities start at 0 or above, a query gets an aging thread
      only when it has none, and a Worker told to interrupt does not end its query first. */
  ghost predicate Permitted(s: State, a: Step) {
    match a
    case QueryArrives(_, p, _) => p >= 0
    case ArrivalPosts => s.llegada != Nadie ==> !Live(s, s.llegada.query)
    case Evicts(_, _) =>
      s.check.Desalojando? && s.check.worker < |s.workers| && Told(s.workers[s.check.worker]) ==>
        !Live(s, s.workers[s.check.worker].query)
    case Ends(w) => w < |s.workers| && s.workers[w].Atendiendo? ==> !s.workers[w].interrumpir
    case _ => true
  }

  // ---------------------------------------------------------------- lists

  lemma InsertKeeps(list: seq<nat>, k: nat, q: nat)
    requires k <= |list| && q !in list && Distinct(list)
    ensures var r := InsertAt(list, k, q);
      Distinct(r) && |r| == |list| + 1 && forall x :: x in r <==> x == q || x in list
  {
    var r := InsertAt(list, k, q);
    assert forall i :: 0 <= i < |r| ==> r[i] == if i < k then list[i] else if i == k then q else list[i - 1];
    forall x | x in list
      ensures x in r
    {
      var i :| 0 <= i < |list| && list[i] == x;
      assert r[if i < k then i else i + 1] == x;
    }
    assert r[k] == q;
    forall i, j | 0 <= i < j < |r|
      ensures r[i] != r[j]
    {
      if i == k { assert r[j] == list[j - 1]; } else if j == k { assert r[i] == list[i]; }
    }
  }

  lemma WithoutKeeps(list: seq<nat>, q: nat)
    requires Distinct(list)
    ensures var r := Without(list, q);
      Distinct(r) && (q in list ==> |r| == |list| - 1) && forall x :: x in r <==> x in list && x != q
  {
    WithoutDistinct(list, q);
  }

  lemma {:induction false} WithoutAbsent(list: seq<nat>, q: nat)
    requires q !in list
    ensures Without(list, q) == list
  {
    if list != [] { WithoutAbsent(list[1..], q); }
  }

  lemma AppendKeeps(list: seq<nat>, q: nat)
    requires Distinct(list) && q !in list
    ensures Distinct(list + [q]) && forall x :: x in list + [q] <==> x in list || x == q
  {
  }

  lemma TailKeeps(list: seq<nat>)
    requires Distinct(list) && list != []
    ensures Distinct(list[1..]) && forall x :: x in list[1..] <==> x in list && x != list[0]
  {
    assert forall i :: 0 <= i < |list| - 1 ==> list[1..][i] == list[i + 1];
    forall x | x in list && x != list[0]
      ensures x in list[1..]
    {
      var i :| 0 <= i < |list| && list[i] == x;
      assert list[1..][i - 1] == x;
    }
  }

  lemma {:induction false} WithoutSorted(prio: map<nat, int>, list: seq<nat>, q: nat)
    requires Sorted(prio, list)
    ensures Sorted(prio, Without(list, q))
  {
    if list != [] {
      var rest := list[1..];
      assert forall i :: 0 <= i < |rest| ==> rest[i] == list[i + 1];
      if list[0] != q {
        WithoutSorted(prio, rest, q);
        var r := Without(rest, q);
        forall j | 0 <= j < |r|
          ensures P(prio, list[0]) <= P(prio, r[j])
        {
          assert r[j] in rest;
        }
      }
    }
  }

  /** The head of a sorted list is its least priority. */
  lemma HeadIsLeast(prio: map<nat, int>, list: seq<nat>, q: nat)
    requires Sorted(prio, list) && q in list
    ensures P(prio, list[0]) <= P(prio, q)
  {
  }

  /** There is always a place that keeps a sorted list sorted. */
  lemma {:induction false} PlaceExists(prio: map<nat, int>, list: seq<nat>, q: nat) returns (k: nat)
    requires Sorted(prio, list)
    ensures k <= |list| && Sorted(prio, InsertAt(list, k, q))
    ensures forall i :: 0 <= i < k ==> P(prio, list[i]) <= P(prio, q)
    ensures forall i :: k <= i < |list| ==> P(prio, list[i]) > P(prio, q)
  {
    k := 0;
    while k < |list| && P(prio, list[k]) <= P(prio, q)
      invariant k <= |list| && forall i :: 0 <= i < k ==> P(prio, list[i]) <= P(prio, q)
    {
      k := k + 1;
    }
    var r := InsertAt(list, k, q);
    assert forall i :: 0 <= i < |r| ==> r[i] == if i < k then list[i] else if i == k then q else list[i - 1];
  }

  // ---------------------------------------------------------------- free workers

  lemma {:induction false} FreeUpdate(workers: seq<Worker>, w: nat, x: Worker)
    requires w < |workers|
    ensures HowManyFree(workers[w := x]) ==
      HowManyFree(workers) - (if workers[w] == Libre then 1 else 0) + if x == Libre then 1 else 0
  {
    if w == 0 {
      assert workers[0 := x][1..] == workers[1..];
    } else {
      assert workers[w := x][1..] == workers[1..][w - 1 := x];
      FreeUpdate(workers[1..], w - 1, x);
    }
  }

  lemma {:induction false} FreeAppend(workers: seq<Worker>, x: Worker)
    ensures HowManyFree(workers + [x]) == HowManyFree(workers) + if x == Libre then 1 else 0
  {
    if workers == [] {
      assert [x][1..] == [];
      assert workers + [x] == [x];
    } else {
      assert (workers + [x])[1..] == workers[1..] + [x];
      FreeAppend(workers[1..], x);
    }
  }

  lemma {:induction false} FreeFound(workers: seq<Worker>)
    ensures HowManyFree(workers) == 0 <==> forall w :: 0 <= w < |workers| ==> workers[w] != Libre
  {
    if workers != [] {
      FreeFound(workers[1..]);
      assert workers == [workers[0]] + workers[1..];
    }
  }
}
