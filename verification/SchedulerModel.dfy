/** The Master's scheduler as a machine: arrivals, the dispatcher, aging threads, the preemption
    decision and the Worker handlers, one critical section at a time. */
module SchedulerModel {
  import opened StorageModel
  import opened Recency

  datatype Plan = FIFO | PRIORIDADES

  /** A Worker is free, runs a query, has reported an error of its query and has yet to consult,
      or its handler is done with the query and has yet to call liberar_worker. */
  datatype Worker =
    | Libre
    | Atendiendo(query: nat, interrumpir: bool)
    | ConError(query: nat, interrumpir: bool)
    | PorLiberar

  /** The dispatcher's place in its loop; `Emparejado` is after hacer_par_query_worker, before it
      reads signal_asign. */
  datatype Dispatcher = Esperando | ConReady | ConAmbos | EnMano(query: nat) | Emparejado

  /** The network thread's place after inserting a query. */
  datatype Arrival = Nadie | EnLista(query: nat) | EnConsulta(query: nat) | PorAvisar(query: nat)

  /** An aging thread: asleep, or about to call check_prior. */
  datatype Aging = Dormido(query: nat) | PorConsultar(query: nat)

  datatype Caller = DeLlegada(query: nat) | DeEdad(query: nat)

  /** check_prior: nobody in it, waiting for the victim's Worker with mutex_ready held, waiting
      for the dispatcher, or past that wait with signal_asign still set. */
  datatype Check =
    | Abierto
    | Desalojando(worker: nat, caller: Caller)
    | Asignando(caller: Caller)
    | Reabriendo(caller: Caller)

  datatype State = State(
    plan: Plan,
    edad: bool,             // TIEMPO_AGING != 0
    prio: map<nat, int>,
    pc: map<nat, nat>,
    ready: seq<nat>,
    exec: seq<nat>,
    workers: seq<Worker>,
    semReady: nat,
    semWorkers: nat,
    avisos: nat,            // Workers added or released whose sem_post is still to come
    disp: Dispatcher,
    llegada: Arrival,
    aging: seq<Aging>,
    check: Check,
    signalAsign: bool,
    semAsign: nat,
    vacante: Option<int>,   // the priority evicted last, until a query is dispatched
    acabadas: set<nat>)     // queries whose end has been notified

  datatype Step =
    | QueryArrives(query: nat, prioridad: int, k: nat)
    | ArrivalChecks
    | ArrivalPosts
    | WorkerArrives
    | WorkerPosted
    | TakesReady
    | TakesWorker
    | Pops
    | Pairs
    | Signals
    | Wakes
    | Reopens
    | Ages(i: nat, k: nat)
    | AgeChecks(i: nat)
    | Evicts(k: nat, newPc: nat)
    | Ends(w: nat)     // EXIT
    | Fails(w: nat)    // ERROR_AT_EXEC
    | Drops(w: nat)    // the consult of a Worker with an error, not told to interrupt
    | Releases(w: nat)

  // ---------------------------------------------------------------- lists

  function P(prio: map<nat, int>, q: nat): int {
    if q in prio then prio[q] else 0
  }

  ghost predicate Sorted(prio: map<nat, int>, list: seq<nat>) {
    forall i, j :: 0 <= i < j < |list| ==> P(prio, list[i]) <= P(prio, list[j])
  }

  /** list_add_sorted puts the query at some place that leaves the list sorted. */
  function InsertAt(list: seq<nat>, k: nat, q: nat): seq<nat>
    requires k <= |list|
  {
    list[..k] + [q] + list[k..]
  }

  function RemoveAt<T>(list: seq<T>, i: nat): seq<T>
    requires i < |list|
  {
    list[..i] + list[i + 1..]
  }

  ghost predicate Placed(s: State, prio: map<nat, int>, list: seq<nat>, k: nat, q: nat) {
    k <= |list| && if s.plan == FIFO then k == |list| else Sorted(prio, InsertAt(list, k, q))
  }

  // ---------------------------------------------------------------- workers

  /** buscar_worker_libre */
  function FirstLibre(workers: seq<Worker>, i: nat): (r: Option<nat>)
    ensures r.Some? ==> i <= r.value < |workers| && workers[r.value] == Libre
    ensures r.None? ==> forall j :: i <= j < |workers| ==> workers[j] != Libre
    decreases |workers| - i
  {
    if i >= |workers| then None else if workers[i] == Libre then Some(i) else FirstLibre(workers, i + 1)
  }

  predicate Runs(x: Worker, q: nat) {
    x.Atendiendo? && x.query == q
  }

  /** Its handler will evict the query at the next consult. */
  predicate Told(x: Worker) {
    (x.Atendiendo? || x.ConError?) && x.interrumpir
  }

  function WorkerOf(workers: seq<Worker>, q: nat, i: nat): (r: Option<nat>)
    ensures r.Some? ==> i <= r.value < |workers| && Runs(workers[r.value], q)
    ensures r.None? ==> forall j :: i <= j < |workers| ==> !Runs(workers[j], q)
    decreases |workers| - i
  {
    if i >= |workers| then None else if Runs(workers[i], q) then Some(i) else WorkerOf(workers, q, i + 1)
  }

  predicate Interrupted(workers: seq<Worker>, q: nat) {
    var w := WorkerOf(workers, q, 0);
    w.Some? && workers[w.value].interrumpir
  }

  // ---------------------------------------------------------------- check_prior

  /** buscar_victima, from position `i` with the best so far. */
  function Victima(s: State, i: nat, best: nat): (v: nat)
    requires best < |s.exec|
    ensures v < |s.exec|
    decreases |s.exec| - i
  {
    if i >= |s.exec| then best
    else
      var worse := P(s.prio, s.exec[i]) > P(s.prio, s.exec[best]) && !Interrupted(s.workers, s.exec[i]);
      Victima(s, i + 1, if worse then i else best)
  }

  /** `Cae`: the C code reads the priority of a NULL query or advances an iterator over nothing. */
  datatype Decision = Sigue | Desaloja(worker: nat) | Cae

  function CheckPrior(s: State): Decision {
    if FirstLibre(s.workers, 0).Some? || s.workers == [] then Sigue
    else if s.exec == [] || s.ready == [] then Cae
    else
      var v := s.exec[Victima(s, 1, 0)];
      var w := WorkerOf(s.workers, v, 0);
      if w.None? then Cae
      else if P(s.prio, v) > P(s.prio, s.ready[0]) && !s.workers[w.value].interrumpir then Desaloja(w.value)
      else Sigue
  }

  /** check_prior holds mutex_ready until the victim's Worker answers. */
  predicate ReadyLocked(s: State) {
    s.check.Desalojando?
  }

  /** The caller goes on after check_prior. */
  function Resume(s: State, caller: Caller): State {
    match caller
    case DeLlegada(q) => s.(llegada := PorAvisar(q))
    case DeEdad(q) => s.(aging := s.aging + AgingOf(s, q))
  }

  /** An aging thread for `q`, unless there is nothing left to lower. */
  function AgingOf(s: State, q: nat): seq<Aging> {
    if s.plan == PRIORIDADES && s.edad && P(s.prio, q) != 0 then [Dormido(q)] else []
  }

  // ---------------------------------------------------------------- steps

  ghost predicate Enabled(s: State, a: Step) {
    match a
    case QueryArrives(q, p, k) =>
      s.llegada == Nadie && !ReadyLocked(s) && q !in s.prio && Placed(s, s.prio[q := p], s.ready, k, q)
    case ArrivalChecks => s.llegada.EnLista? && s.check == Abierto && !CheckPrior(s).Cae?
    case ArrivalPosts => s.llegada.PorAvisar?
    case WorkerArrives => s.llegada == Nadie
    case WorkerPosted => s.avisos > 0
    case TakesReady => s.disp == Esperando && s.semReady > 0
    case TakesWorker => s.disp == ConReady && s.semWorkers > 0
    case Pops => s.disp == ConAmbos && !ReadyLocked(s) && s.ready != []
    case Pairs => s.disp.EnMano? && FirstLibre(s.workers, 0).Some?
    case Signals => s.disp == Emparejado
    case Wakes => s.check.Asignando? && s.semAsign > 0
    case Reopens => s.check.Reabriendo?
    case Ages(i, k) =>
      i < |s.aging| && s.aging[i].Dormido? && !ReadyLocked(s)
      && var q := s.aging[i].query;
         q in s.ready && P(s.prio, q) > 0 ==> Placed(s, s.prio[q := P(s.prio, q) - 1], Without(s.ready, q), k, q)
    case AgeChecks(i) => i < |s.aging| && s.aging[i].PorConsultar? && s.check == Abierto && !CheckPrior(s).Cae?
    case Evicts(k, _) =>
      s.check.Desalojando? && s.check.worker < |s.workers| && Told(s.workers[s.check.worker])
      && Placed(s, s.prio, s.ready, k, s.workers[s.check.worker].query)
    case Ends(w) => w < |s.workers| && s.workers[w].Atendiendo?
    case Fails(w) => w < |s.workers| && s.workers[w].Atendiendo?
    case Drops(w) => w < |s.workers| && s.workers[w].ConError? && !s.workers[w].interrumpir
    case Releases(w) => w < |s.workers| && s.workers[w] == PorLiberar
  }

  function Next(s: State, a: Step): State
    requires Enabled(s, a)
  {
    match a
    case QueryArrives(q, p, k) =>
      s.(prio := s.prio[q := p], pc := s.pc[q := 0], ready := InsertAt(s.ready, k, q),
         llegada := if s.plan == FIFO then PorAvisar(q) else EnLista(q))
    case ArrivalChecks => Checked(s.(llegada := EnConsulta(s.llegada.query)), DeLlegada(s.llegada.query))
    case ArrivalPosts =>
      s.(semReady := s.semReady + 1, llegada := Nadie, aging := s.aging + AgingOf(s, s.llegada.query))
    case WorkerArrives => s.(workers := s.workers + [Libre], avisos := s.avisos + 1)
    case WorkerPosted => s.(avisos := s.avisos - 1, semWorkers := s.semWorkers + 1)
    case TakesReady => s.(semReady := s.semReady - 1, disp := ConReady)
    case TakesWorker => s.(semWorkers := s.semWorkers - 1, disp := ConAmbos)
    case Pops => s.(ready := s.ready[1..], disp := EnMano(s.ready[0]))
    case Pairs =>
      var (q, w) := (s.disp.query, FirstLibre(s.workers, 0).value);
      s.(exec := s.exec + [q], workers := s.workers[w := Atendiendo(q, false)], disp := Emparejado, vacante := None)
    case Signals => s.(semAsign := if s.signalAsign then s.semAsign + 1 else s.semAsign, disp := Esperando)
    case Wakes => s.(semAsign := s.semAsign - 1, check := Reabriendo(s.check.caller))
    case Reopens => Resume(s.(signalAsign := false, check := Abierto), s.check.caller)
    case Ages(i, k) => Aged(s, i, k)
    case AgeChecks(i) => Checked(s.(aging := RemoveAt(s.aging, i)), DeEdad(s.aging[i].query))
    case Evicts(k, newPc) =>
      var (w, q) := (s.check.worker, s.workers[s.check.worker].query);
      s.(exec := Without(s.exec, q), ready := InsertAt(s.ready, k, q), pc := s.pc[q := newPc],
         aging := s.aging + AgingOf(s, q), semReady := s.semReady + 1,
         workers := s.workers[w := PorLiberar], check := Asignando(s.check.caller), vacante := Some(P(s.prio, q)))
    case Ends(w) => Finished(s, w, PorLiberar)
    case Fails(w) => Finished(s, w, ConError(s.workers[w].query, s.workers[w].interrumpir))
    case Drops(w) => s.(workers := s.workers[w := PorLiberar])
    case Releases(w) => s.(workers := s.workers[w := Libre], avisos := s.avisos + 1)
  }

  /** finalizar_query */
  function Finished(s: State, w: nat, next: Worker): State
    requires w < |s.workers| && (s.workers[w].Atendiendo? || s.workers[w].ConError?)
  {
    var q := s.workers[w].query;
    s.(exec := Without(s.exec, q), workers := s.workers[w := next], acabadas := s.acabadas + {q})
  }

  /** check_prior by `caller`. */
  function Checked(s: State, caller: Caller): State {
    match CheckPrior(s)
    case Desaloja(w) =>
      if w < |s.workers| && s.workers[w].Atendiendo? then
        s.(workers := s.workers[w := Atendiendo(s.workers[w].query, true)], check := Desalojando(w, caller),
           signalAsign := true)
      else s
    case _ => Resume(s, caller)
  }

  /** An aging thread wakes: the query leaves the list and, if its priority is above 0, comes
      back one better; one already at 0 does not come back. */
  function Aged(s: State, i: nat, k: nat): State
    requires i < |s.aging|
    requires var q := s.aging[i].query; q in s.ready && P(s.prio, q) > 0 ==> k <= |Without(s.ready, q)|
  {
    var q := s.aging[i].query;
    if q !in s.ready then s.(aging := RemoveAt(s.aging, i))
    else if P(s.prio, q) > 0 then
      s.(prio := s.prio[q := P(s.prio, q) - 1], ready := InsertAt(Without(s.ready, q), k, q),
         aging := s.aging[i := PorConsultar(q)])
    else s.(ready := Without(s.ready, q), aging := RemoveAt(s.aging, i) + AgingOf(s, q))
  }

  /** No queries, no Workers. */
  function Start(plan: Plan, edad: bool): State {
    State(plan, edad, map[], map[], [], [], [], 0, 0, 0, Esperando, Nadie, [], Abierto, false, 0, None, {})
  }
}
