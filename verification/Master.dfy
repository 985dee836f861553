/** The Master's scheduler in the form of its C code: shared lists searched and updated in place,
    one method for each critical section.  Each is proved to be a step of `SchedulerModel`, so
    whatever order the threads call them in is a run of that machine. */
module MasterService {
  import opened StorageModel
  import opened Recency
  import opened SchedulerModel
  import opened SchedulerInvariant
  import opened SchedulerSteps

  /** list_remove_element: the first occurrence goes. */
  method RemoveElement(list: seq<nat>, q: nat) returns (r: seq<nat>, found: bool)
    ensures r == Without(list, q) && found == (q in list)
  {
    var i := 0;
    while i < |list| && list[i] != q
      invariant 0 <= i <= |list| && (forall j :: 0 <= j < i ==> list[j] != q)
      invariant list[..i] + Without(list[i..], q) == Without(list, q)
    {
      assert list[i..][1..] == list[i + 1..];
      assert list[..i + 1] == list[..i] + [list[i]];
      i := i + 1;
    }
    found := i < |list|;
    if found {
      assert list[i..][1..] == list[i + 1..];
      r := list[..i] + list[i + 1..];
    } else {
      assert list[..i] == list && list[i..] == [];
      r := list;
    }
  }

  class Master {
    const plan: Plan
    const edad: bool
    var prio: map<nat, int>
    var pc: map<nat, nat>
    var ready: seq<nat>
    var exec: seq<nat>
    var workers: seq<Worker>
    var semReady: nat
    var semWorkers: nat
    var avisos: nat
    var disp: Dispatcher
    var llegada: Arrival
    var aging: seq<Aging>
    var check: Check
    var signalAsign: bool
    var semAsign: nat
    ghost var vacante: Option<int>
    ghost var acabadas: set<nat>

    ghost function Snapshot(): State
      reads this
    {
      State(plan, edad, prio, pc, ready, exec, workers, semReady, semWorkers, avisos, disp, llegada, aging, check,
            signalAsign, semAsign, vacante, acabadas)
    }

    constructor (plan: Plan, edad: bool)
      ensures this.plan == plan && this.edad == edad
      ensures Snapshot() == Start(plan, edad) && Inv(Snapshot())
    {
      this.plan, this.edad := plan, edad;
      prio, pc, ready, exec, workers := map[], map[], [], [], [];
      semReady, semWorkers, avisos, disp, llegada, aging, check := 0, 0, 0, Esperando, Nadie, [], Abierto;
      signalAsign, semAsign, vacante, acabadas := false, 0, None, {};
    }

    // -------------------------------------------------------------- searches

    /** list_add, or list_add_sorted with priority_comparator. */
    method InsertReady(list: seq<nat>, q: nat) returns (r: seq<nat>, ghost k: nat)
      requires plan == PRIORIDADES ==> Sorted(prio, list)
      ensures k <= |list| && r == InsertAt(list, k, q) && (plan == FIFO ==> k == |list|)
      ensures plan == FIFO ==> r == list + [q]
      ensures plan == PRIORIDADES ==> Sorted(prio, r)
    {
      if plan == FIFO {
        assert list[..|list|] == list && list[|list|..] == [];
        return list + [q], |list|;
      }
      var i := 0;
      while i < |list| && P(prio, list[i]) <= P(prio, q)
        invariant 0 <= i <= |list| && forall j :: 0 <= j < i ==> P(prio, list[j]) <= P(prio, q)
      {
        i := i + 1;
      }
      r, k := list[..i] + [q] + list[i..], i;
      assert forall j :: 0 <= j < |r| ==> r[j] == if j < i then list[j] else if j == i then q else list[j - 1];
    }

    method BuscarWorkerLibre() returns (w: int)
      ensures match FirstLibre(workers, 0) case None => w == -1 case Some(v) => w == v
    {
      w := -1;
      var i := 0;
      while i < |workers|
        invariant 0 <= i <= |workers| && FirstLibre(workers, i) == FirstLibre(workers, 0)
      {
        if workers[i] == Libre { return i; }
        i := i + 1;
      }
    }

    /** query->worker */
    method WorkerDe(q: nat) returns (w: int)
      ensures match WorkerOf(workers, q, 0) case None => w == -1 case Some(v) => w == v
    {
      w := -1;
      var i := 0;
      while i < |workers|
        invariant 0 <= i <= |workers| && WorkerOf(workers, q, i) == WorkerOf(workers, q, 0)
      {
        if Runs(workers[i], q) { return i; }
        i := i + 1;
      }
    }

    /** The worst priority among the queries in execution whose Worker is not yet interrupted. */
    method BuscarVictima() returns (v: nat)
      requires exec != []
      ensures v < |exec| && v == Victima(Snapshot(), 1, 0)
      ensures (forall w :: 0 <= w < |workers| && workers[w].Atendiendo? ==> !workers[w].interrumpir) ==>
        forall i :: 0 <= i < |exec| ==> P(prio, exec[i]) <= P(prio, exec[v])
    {
      v := 0;
      var i := 1;
      while i < |exec|
        invariant 1 <= i <= |exec| && v < |exec|
        invariant Victima(Snapshot(), i, v) == Victima(Snapshot(), 1, 0)
        invariant (forall w :: 0 <= w < |workers| && workers[w].Atendiendo? ==> !workers[w].interrumpir) ==>
          forall j :: 0 <= j < i ==> P(prio, exec[j]) <= P(prio, exec[v])
      {
        var w := WorkerDe(exec[i]);
        if P(prio, exec[i]) > P(prio, exec[v]) && !(w != -1 && workers[w].interrumpir) { v := i; }
        i := i + 1;
      }
    }

    // -------------------------------------------------------------- check_prior

    /** The caller goes on. */
    method Seguir(caller: Caller)
      modifies this`llegada, this`aging
      ensures Snapshot() == Resume(old(Snapshot()), caller)
    {
      match caller
      case DeLlegada(q) => llegada := PorAvisar(q);
      case DeEdad(q) => CrearHiloEdad(q);
    }

    /** The aging thread, which returns at once for a priority of 0. */
    method CrearHiloEdad(q: nat)
      modifies this`aging
      ensures Snapshot() == old(Snapshot()).(aging := old(aging) + AgingOf(old(Snapshot()), q))
    {
      if plan == PRIORIDADES && edad && P(prio, q) != 0 { aging := aging + [Dormido(q)]; }
    }

    method CheckPrior(caller: Caller)
      requires check == Abierto && !SchedulerModel.CheckPrior(Snapshot()).Cae?
      modifies this`workers, this`check, this`llegada, this`aging, this`signalAsign
      ensures Snapshot() == Checked(old(Snapshot()), caller)
    {
      hide AgingOf;
      var libre := BuscarWorkerLibre();
      if libre == -1 && workers != [] {
        var v := BuscarVictima();
        var w := WorkerDe(exec[v]);
        if P(prio, exec[v]) > P(prio, ready[0]) && !workers[w].interrumpir {
          Interrumpir(w, caller);
          return;
        }
      }
      Seguir(caller);
    }

    /** The victim's Worker is told at its next consult. */
    method Interrumpir(w: nat, caller: Caller)
      requires w < |workers| && workers[w].Atendiendo?
      modifies this`workers, this`check, this`signalAsign
      ensures Snapshot() == old(Snapshot()).(
        workers := old(workers)[w := Atendiendo(old(workers)[w].query, true)], check := Desalojando(w, caller),
        signalAsign := true)
    {
      signalAsign := true;
      workers := workers[w := Atendiendo(workers[w].query, true)];
      check := Desalojando(w, caller);
    }

    // -------------------------------------------------------------- arrivals

    method LlegaQuery(q: nat, prioridad: int) returns (ghost k: nat)
      requires Inv(Snapshot()) && llegada == Nadie && !ReadyLocked(Snapshot()) && q !in prio && prioridad >= 0
      modifies this`prio, this`pc, this`ready, this`llegada
      ensures Enabled(old(Snapshot()), QueryArrives(q, prioridad, k))
      ensures Snapshot() == Next(old(Snapshot()), QueryArrives(q, prioridad, k)) && Inv(Snapshot())
    {
      hide Inv, Sorted, InsertAt, Next, Enabled, Placed;
      ghost var s := Snapshot();
      NewcomerSorted(s, q, prioridad);
      k := AgregarQuery(q, prioridad);
      ArrivedState(s, q, prioridad, k);
      StepKeepsInv(s, QueryArrives(q, prioridad, k));
    }

    method AgregarQuery(q: nat, prioridad: int) returns (ghost k: nat)
      requires plan == PRIORIDADES ==> Sorted(prio[q := prioridad], ready)
      modifies this`prio, this`pc, this`ready, this`llegada
      ensures Placed(old(Snapshot()), prio, old(ready), k, q) && k <= |old(ready)|
      ensures Snapshot() == old(Snapshot()).(
        prio := old(prio)[q := prioridad], pc := old(pc)[q := 0], ready := InsertAt(old(ready), k, q),
        llegada := if plan == FIFO then PorAvisar(q) else EnLista(q))
    {
      hide Sorted, InsertAt;
      prio, pc := prio[q := prioridad], pc[q := 0];
      ready, k := InsertReady(ready, q);
      llegada := if plan == FIFO then PorAvisar(q) else EnLista(q);
    }

    method ConsultarLlegada()
      requires Inv(Snapshot()) && Enabled(Snapshot(), ArrivalChecks)
      modifies this
      ensures Snapshot() == Next(old(Snapshot()), ArrivalChecks) && Inv(Snapshot())
    {
      hide Inv;
      StepKeepsInv(Snapshot(), ArrivalChecks);
      var q := llegada.query;
      SameCheck(Snapshot(), Snapshot().(llegada := EnConsulta(q)));
      llegada := EnConsulta(q);
      CheckPrior(DeLlegada(q));
    }

    method AvisarReady()
      requires Inv(Snapshot()) && Enabled(Snapshot(), ArrivalPosts) && Permitted(Snapshot(), ArrivalPosts)
      modifies this`semReady, this`llegada, this`aging
      ensures Snapshot() == Next(old(Snapshot()), ArrivalPosts) && Inv(Snapshot())
    {
      hide Inv;
      StepKeepsInv(Snapshot(), ArrivalPosts);
      CrearHiloEdad(llegada.query);
      semReady := semReady + 1;
      llegada := Nadie;
    }

    method LlegaWorker()
      requires Inv(Snapshot()) && llegada == Nadie
      modifies this`workers, this`avisos
      ensures Snapshot() == Next(old(Snapshot()), WorkerArrives) && Inv(Snapshot())
    {
      hide Inv;
      StepKeepsInv(Snapshot(), WorkerArrives);
      workers := workers + [Libre];
      avisos := avisos + 1;
    }

    method AvisarWorker()
      requires Inv(Snapshot()) && avisos > 0
      modifies this`semWorkers, this`avisos
      ensures Snapshot() == Next(old(Snapshot()), WorkerPosted) && Inv(Snapshot())
    {
      hide Inv;
      StepKeepsInv(Snapshot(), WorkerPosted);
      avisos, semWorkers := avisos - 1, semWorkers + 1;
    }

    // -------------------------------------------------------------- dispatcher

    /** The two sem_wait of the loop, when they pass. */
    method TomarFichas() returns (passed: bool)
      requires Inv(Snapshot()) && (disp == Esperando || disp == ConReady)
      modifies this`semReady, this`semWorkers, this`disp
      ensures Inv(Snapshot())
      ensures var (s, a) := (old(Snapshot()), if old(disp) == Esperando then TakesReady else TakesWorker);
        passed == Enabled(s, a) && Snapshot() == if passed then Next(s, a) else s
    {
      hide Inv;
      ghost var a := if disp == Esperando then TakesReady else TakesWorker;
      passed := if disp == Esperando then semReady > 0 else semWorkers > 0;
      if passed {
        StepKeepsInv(Snapshot(), a);
        if disp == Esperando {
          semReady, disp := semReady - 1, ConReady;
        } else {
          semWorkers, disp := semWorkers - 1, ConAmbos;
        }
      }
    }

    /** obtener_query: the list is not empty when the dispatcher gets here. */
    method ObtenerQuery()
      requires Inv(Snapshot()) && disp == ConAmbos && !ReadyLocked(Snapshot())
      modifies this`ready, this`disp
      ensures Enabled(old(Snapshot()), Pops) && Snapshot() == Next(old(Snapshot()), Pops) && Inv(Snapshot())
    {
      hide Inv;
      DispatcherNeverFails(Snapshot());
      StepKeepsInv(Snapshot(), Pops);
      var q := ready[0];
      ready, disp := ready[1..], EnMano(q);
    }

    /** hacer_par_query_worker */
    method HacerPar()
      requires Inv(Snapshot()) && disp.EnMano?
      modifies this`exec, this`workers, this`disp, this`vacante
      ensures Enabled(old(Snapshot()), Pairs) && Snapshot() == Next(old(Snapshot()), Pairs) && Inv(Snapshot())
    {
      hide Inv, Next;
      DispatcherNeverFails(Snapshot());
      StepKeepsInv(Snapshot(), Pairs);
      PairedState(Snapshot());
      var w := BuscarWorkerLibre();
      exec := exec + [disp.query];
      workers := workers[w := Atendiendo(disp.query, false)];
      disp, vacante := Emparejado, None;
    }

    /** The end of the dispatcher's loop. */
    method AvisarAsign()
      requires Inv(Snapshot()) && disp == Emparejado
      modifies this`semAsign, this`disp
      ensures Snapshot() == Next(old(Snapshot()), Signals) && Inv(Snapshot())
    {
      hide Inv;
      StepKeepsInv(Snapshot(), Signals);
      if signalAsign { semAsign := semAsign + 1; }
      disp := Esperando;
    }

    /** The end of check_prior: sem_asign, when it passes. */
    method TomarAsign() returns (passed: bool)
      requires Inv(Snapshot()) && check.Asignando?
      modifies this`semAsign, this`check
      ensures passed == Enabled(old(Snapshot()), Wakes) && Inv(Snapshot())
      ensures Snapshot() == if passed then Next(old(Snapshot()), Wakes) else old(Snapshot())
    {
      hide Inv;
      passed := semAsign > 0;
      if passed {
        StepKeepsInv(Snapshot(), Wakes);
        semAsign, check := semAsign - 1, Reabriendo(check.caller);
      }
    }

    method ReabrirCheck()
      requires Inv(Snapshot()) && check.Reabriendo?
      modifies this`signalAsign, this`check, this`llegada, this`aging
      ensures Snapshot() == Next(old(Snapshot()), Reopens) && Inv(Snapshot())
    {
      hide Inv;
      StepKeepsInv(Snapshot(), Reopens);
      var caller := check.caller;
      signalAsign, check := false, Abierto;
      Seguir(caller);
    }

    // -------------------------------------------------------------- aging

    /** One turn of actualizador, up to check_prior. */
    method Envejecer(i: nat) returns (ghost k: nat)
      requires Inv(Snapshot()) && i < |aging| && aging[i].Dormido? && !ReadyLocked(Snapshot())
      modifies this`prio, this`ready, this`aging
      ensures Enabled(old(Snapshot()), Ages(i, k)) && Snapshot() == Next(old(Snapshot()), Ages(i, k)) && Inv(Snapshot())
    {
      hide Inv, Sorted, InsertAt, Without, Next, Enabled, Placed;
      ghost var s := Snapshot();
      var q := aging[i].query;
      var rest, found := RemoveElement(ready, q);
      k := 0;
      if !found {
        aging := aging[..i] + aging[i + 1..];
        AgedState(s, i, k);
        StepKeepsInv(s, Ages(i, k));
        return;
      }
      LoweredSorted(s, q);
      AgingPositive(s, i);
      k := BajarPrioridad(i, rest);
      AgedState(s, i, k);
      StepKeepsInv(s, Ages(i, k));
    }

    /** The query has left the list and comes back one better. */
    method BajarPrioridad(i: nat, rest: seq<nat>) returns (ghost k: nat)
      requires i < |aging| && aging[i].query in prio
      requires var q := aging[i].query; plan == PRIORIDADES ==> Sorted(prio[q := prio[q] - 1], rest)
      modifies this`prio, this`ready, this`aging
      ensures Placed(old(Snapshot()), prio, rest, k, old(aging[i]).query) && k <= |rest|
      ensures var q := old(aging[i]).query;
        Snapshot() == old(Snapshot()).(
          prio := old(prio)[q := old(prio)[q] - 1], ready := InsertAt(rest, k, q),
            aging := old(aging)[i := PorConsultar(q)])
    {
      hide Sorted, InsertAt;
      var q := aging[i].query;
      prio := prio[q := prio[q] - 1];
      ready, k := InsertReady(rest, q);
      aging := aging[i := PorConsultar(q)];
    }

    method ConsultarEdad(i: nat)
      requires Inv(Snapshot()) && Enabled(Snapshot(), AgeChecks(i))
      modifies this
      ensures Snapshot() == Next(old(Snapshot()), AgeChecks(i)) && Inv(Snapshot())
    {
      hide Inv;
      StepKeepsInv(Snapshot(), AgeChecks(i));
      var q := aging[i].query;
      SameCheck(Snapshot(), Snapshot().(aging := RemoveAt(aging, i)));
      aging := aging[..i] + aging[i + 1..];
      CheckPrior(DeEdad(q));
    }

    // -------------------------------------------------------------- Worker handlers

    /** CONSULTA_INTERRUPCION; a query interrupted leaves with the pc the Worker sends, also when
        it has ended with an error. */
    method ConsultaInterrupcion(w: nat, newPc: nat) returns (result: bool, ghost k: nat)
      requires Inv(Snapshot()) && w < |workers| && (workers[w].Atendiendo? || workers[w].ConError?)
      requires Told(workers[w]) ==> !Live(Snapshot(), workers[w].query)
      modifies this
      ensures result == (old(workers[w]).interrumpir || old(workers[w]).ConError?) && Inv(Snapshot())
      ensures if !result then Snapshot() == old(Snapshot())
        else
          var a := if old(workers[w]).interrumpir then Evicts(k, newPc) else Drops(w);
          Enabled(old(Snapshot()), a) && Snapshot() == Next(old(Snapshot()), a)
    {
      hide Inv, Next, Enabled, Live, Without, InsertAt, Placed, AgingOf, Sorted;
      result, k := workers[w].interrumpir || workers[w].ConError?, 0;
      if workers[w].interrumpir {
        ghost var s := Snapshot();
        VictimAsked(s, w);
        k := DesalojarQuery(w, newPc);
        EvictedState(s, k, newPc);
        StepKeepsInv(s, Evicts(k, newPc));
      } else if workers[w].ConError? {
        SoltarWorker(w);
      }
    }

    /** A Worker whose query ended with an error has nothing to evict. */
    method SoltarWorker(w: nat)
      requires Inv(Snapshot()) && w < |workers| && workers[w].ConError? && !workers[w].interrumpir
      modifies this`workers
      ensures Enabled(old(Snapshot()), Drops(w)) && Snapshot() == Next(old(Snapshot()), Drops(w)) && Inv(Snapshot())
    {
      hide Inv;
      StepKeepsInv(Snapshot(), Drops(w));
      workers := workers[w := PorLiberar];
    }

    /** The interrupted query goes back to the ready list. */
    method DesalojarQuery(w: nat, newPc: nat) returns (ghost k: nat)
      requires w < |workers| && Told(workers[w]) && check.Desalojando? && check.worker == w
      requires plan == PRIORIDADES ==> Sorted(prio, ready)
      modifies this
      ensures Placed(old(Snapshot()), old(prio), old(ready), k, old(workers[w]).query) && k <= |old(ready)|
      ensures Snapshot() == AfterEviction(old(Snapshot()), k, newPc)
    {
      hide Without, InsertAt, Sorted, AgingOf, Placed;
      ghost var s := Snapshot();
      var q := workers[w].query;
      k := VolverAReady(q, newPc);
      SameAging(s, Snapshot(), q);
      CrearHiloEdad(q);
      AvisarDesalojo(w);
    }

    /** sem_ready and sem_int. */
    method AvisarDesalojo(w: nat)
      requires w < |workers| && Told(workers[w]) && check.Desalojando?
      modifies this`semReady, this`workers, this`check, this`vacante
      ensures Snapshot() == old(Snapshot()).(
        semReady := old(semReady) + 1, workers := old(workers)[w := PorLiberar],
        check := Asignando(old(check).caller), vacante := Some(P(prio, old(workers)[w].query)))
    {
      semReady := semReady + 1;
      vacante := Some(P(prio, workers[w].query));
      workers := workers[w := PorLiberar];
      check := Asignando(check.caller);
    }

    /** The query changes list and keeps the pc it stopped at. */
    method VolverAReady(q: nat, newPc: nat) returns (ghost k: nat)
      requires plan == PRIORIDADES ==> Sorted(prio, ready)
      modifies this`pc, this`exec, this`ready
      ensures Placed(old(Snapshot()), prio, old(ready), k, q) && k <= |old(ready)|
      ensures Snapshot() == old(Snapshot()).(
        exec := Without(old(exec), q), ready := InsertAt(old(ready), k, q), pc := old(pc)[q := newPc])
    {
      hide Without, InsertAt, Sorted;
      var found;
      exec, found := RemoveElement(exec, q);
      pc := pc[q := newPc];
      ready, k := InsertReady(ready, q);
    }

    /** finalizar_query, by EXIT. */
    method FinalizarQuery(w: nat)
      requires Inv(Snapshot()) && w < |workers| && workers[w].Atendiendo?
      modifies this`exec, this`workers, this`acabadas
      ensures Snapshot() == Next(old(Snapshot()), Ends(w))
      ensures !old(workers[w]).interrumpir ==> Inv(Snapshot())
    {
      hide Inv, Without;
      if !workers[w].interrumpir { StepKeepsInv(Snapshot(), Ends(w)); }
      QuitarDeExec(w);
      workers := workers[w := PorLiberar];
    }

    /** finalizar_query, by ERROR_AT_EXEC. */
    method FinalizarConError(w: nat)
      requires Inv(Snapshot()) && w < |workers| && workers[w].Atendiendo?
      modifies this`exec, this`workers, this`acabadas
      ensures Snapshot() == Next(old(Snapshot()), Fails(w)) && Inv(Snapshot())
    {
      hide Inv, Without;
      StepKeepsInv(Snapshot(), Fails(w));
      QuitarDeExec(w);
      workers := workers[w := ConError(workers[w].query, workers[w].interrumpir)];
    }

    method QuitarDeExec(w: nat)
      requires w < |workers| && workers[w].Atendiendo?
      modifies this`exec, this`acabadas
      ensures Snapshot() == old(Snapshot()).(
        exec := Without(old(exec), workers[w].query), acabadas := old(acabadas) + {workers[w].query})
    {
      var found;
      exec, found := RemoveElement(exec, workers[w].query);
      acabadas := acabadas + {workers[w].query};
    }

    method LiberarWorker(w: nat)
      requires Inv(Snapshot()) && w < |workers| && workers[w] == PorLiberar
      modifies this`workers, this`avisos
      ensures Snapshot() == Next(old(Snapshot()), Releases(w)) && Inv(Snapshot())
    {
      hide Inv;
      StepKeepsInv(Snapshot(), Releases(w));
      workers := workers[w := Libre];
      avisos := avisos + 1;
    }
  }

  lemma PairedState(s: State)
    requires Enabled(s, Pairs)
    ensures var w := FirstLibre(s.workers, 0).value;
      Next(s, Pairs) == s.(exec := s.exec + [s.disp.query], workers := s.workers[w := Atendiendo(s.disp.query, false)],
                           disp := Emparejado, vacante := None)
  {
  }

  lemma ArrivedState(s: State, q: nat, p: int, k: nat)
    requires s.llegada == Nadie && !ReadyLocked(s) && q !in s.prio && Placed(s, s.prio[q := p], s.ready, k, q)
    ensures Enabled(s, QueryArrives(q, p, k)) && Next(s, QueryArrives(q, p, k)) ==
      s.(prio := s.prio[q := p], pc := s.pc[q := 0], ready := InsertAt(s.ready, k, q),
         llegada := if s.plan == FIFO then PorAvisar(q) else EnLista(q))
  {
  }

  lemma AgedState(s: State, i: nat, k: nat)
    requires i < |s.aging| && s.aging[i].Dormido? && !ReadyLocked(s)
    ensures var q := s.aging[i].query;
      q !in s.ready ==> Enabled(s, Ages(i, k)) && Next(s, Ages(i, k)) == s.(aging := s.aging[..i] + s.aging[i + 1..])
    ensures var q := s.aging[i].query;
      q in s.ready && P(s.prio, q) > 0 && Placed(s, s.prio[q := P(s.prio, q) - 1], Without(s.ready, q), k, q) ==>
      Enabled(s, Ages(i, k)) && Next(s, Ages(i, k)) ==
        s.(prio := s.prio[q := P(s.prio, q) - 1], ready := InsertAt(Without(s.ready, q), k, q),
           aging := s.aging[i := PorConsultar(q)])
  {
  }

  /** A query not in the list does not disturb its order. */
  lemma NewcomerSorted(s: State, q: nat, p: int)
    requires Inv(s) && q !in s.prio
    ensures s.plan == PRIORIDADES ==> Sorted(s.prio[q := p], s.ready)
  {
  }

  lemma AgingPositive(s: State, i: nat)
    requires Inv(s) && i < |s.aging| && s.aging[i].Dormido?
    ensures P(s.prio, s.aging[i].query) > 0 && s.aging[i].query in s.prio
  {
  }

  /** The state after an eviction, spelled out. */
  function AfterEviction(s: State, k: nat, newPc: nat): State
    requires s.check.Desalojando? && s.check.worker < |s.workers| && Told(s.workers[s.check.worker]) && k <= |s.ready|
  {
    var (w, q) := (s.check.worker, s.workers[s.check.worker].query);
    s.(exec := Without(s.exec, q), ready := InsertAt(s.ready, k, q), pc := s.pc[q := newPc],
       aging := s.aging + AgingOf(s, q), semReady := s.semReady + 1,
       workers := s.workers[w := PorLiberar], check := Asignando(s.check.caller), vacante := Some(P(s.prio, q)))
  }

  lemma EvictedState(s: State, k: nat, newPc: nat)
    requires s.check.Desalojando? && s.check.worker < |s.workers| && Told(s.workers[s.check.worker])
    requires Placed(s, s.prio, s.ready, k, s.workers[s.check.worker].query)
    ensures Enabled(s, Evicts(k, newPc)) && k <= |s.ready| && Next(s, Evicts(k, newPc)) == AfterEviction(s, k, newPc)
  {
  }

  lemma SameAging(s: State, r: State, q: nat)
    requires r.plan == s.plan && r.edad == s.edad && r.prio == s.prio
    ensures AgingOf(r, q) == AgingOf(s, q)
  {
  }

  lemma VictimAsked(s: State, w: nat)
    requires Inv(s) && w < |s.workers| && Told(s.workers[w])
    ensures s.check.Desalojando? && s.check.worker == w && (s.plan == PRIORIDADES ==> Sorted(s.prio, s.ready))
  {
  }

  lemma LoweredSorted(s: State, q: nat)
    requires Inv(s) && q in s.ready
    ensures q in s.prio && (s.plan == PRIORIDADES ==> Sorted(s.prio[q := P(s.prio, q) - 1], Without(s.ready, q)))
  {
    WithoutKeeps(s.ready, q);
    if s.plan == PRIORIDADES { WithoutSorted(s.prio, s.ready, q); }
    var r := Without(s.ready, q);
    forall i | 0 <= i < |r|
      ensures P(s.prio[q := P(s.prio, q) - 1], r[i]) == P(s.prio, r[i])
    {
      assert r[i] in r;
    }
  }
}
