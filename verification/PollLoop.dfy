/** The supervisor poll loop as coroutines: at every await a timer, a stop or another poll may come in between. */
module PollLoop {
  import opened Text

  datatype Brainstorm = Brainstorm(id: string, approvalState: string, status: string)

  predicate CanAdvance(b: Brainstorm) {
    b.approvalState == "reserved" && b.status !in ["completed", "failed", "cancelled", "needs_arbitration"]
  }

  /** What a poll that has read the store ticks; a store that cannot be read has nothing to tick. */
  function Advanceable(store: Option<seq<Brainstorm>>): seq<string> {
    if store.None? then [] else AdvanceableIds(store.value)
  }

  function AdvanceableIds(records: seq<Brainstorm>): seq<string> {
    if records == [] then []
    else (if CanAdvance(records[0]) then [records[0].id] else []) + AdvanceableIds(records[1..])
  }

  /** A brainstorm that is reserved and not over. */
  predicate Unfinished(b: Brainstorm) {
    b.approvalState == "reserved" && b.status != "completed" && b.status != "failed" && b.status != "cancelled" &&
    b.status != "needs_arbitration"
  }

  /** `at` are the places of the unfinished records, in order, and `ticked` their ids. */
  predicate PlacesOf(at: seq<nat>, ticked: seq<string>, records: seq<Brainstorm>) {
    |at| == |ticked| && (forall a, b :: 0 <= a < b < |at| ==> at[a] < at[b]) &&
    (forall a :: 0 <= a < |at| ==> at[a] < |records| && ticked[a] == records[at[a]].id) &&
    forall p :: 0 <= p < |records| ==> (p in at <==> Unfinished(records[p]))
  }

  /** The ids of exactly the unfinished records, each record once and in the order of the store. */
  ghost predicate TicksUnfinished(ticked: seq<string>, records: seq<Brainstorm>) {
    exists at: seq<nat> :: PlacesOf(at, ticked, records)
  }

  lemma CanAdvanceIs(b: Brainstorm)
    ensures CanAdvance(b) <==> Unfinished(b)
  {
  }

  lemma {:induction false} UnfinishedPlaces(records: seq<Brainstorm>) returns (at: seq<nat>)
    ensures PlacesOf(at, AdvanceableIds(records), records)
  {
    if records == [] {
      at := [];
    } else {
      var rest := UnfinishedPlaces(records[1..]);
      CanAdvanceIs(records[0]);
      hide CanAdvance, Unfinished, PlacesOf;
      var ticked := AdvanceableIds(records[1..]);
      at := OnePlaceOn(rest, ticked, records);
    }
  }

  function Moved(rest: seq<nat>): (r: seq<nat>)
    ensures |r| == |rest| && forall a :: 0 <= a < |r| ==> r[a] == rest[a] + 1
  {
    seq(|rest|, a requires 0 <= a < |rest| => rest[a] + 1)
  }

  lemma MovedHolds(rest: seq<nat>, p: nat)
    ensures p in Moved(rest) <==> p > 0 && p - 1 in rest
  {
    if p > 0 && p - 1 in rest {
      var a :| 0 <= a < |rest| && rest[a] == p - 1;
      assert Moved(rest)[a] == p;
    }
  }

  /** The places in a list from those in its tail. */
  lemma OnePlaceOn(rest: seq<nat>, ticked: seq<string>, records: seq<Brainstorm>) returns (at: seq<nat>)
    requires records != [] && PlacesOf(rest, ticked, records[1..])
    ensures PlacesOf(at, (if Unfinished(records[0]) then [records[0].id] else []) + ticked, records)
  {
    hide *;
    forall p: nat ensures p in Moved(rest) <==> p > 0 && p - 1 in rest {
      MovedHolds(rest, p);
    }
    LaterPlaces(rest, Moved(rest), ticked, records);
    if Unfinished(records[0]) {
      at := [0] + Moved(rest);
      FirstPlace(Moved(rest), ticked, records);
    } else {
      at := Moved(rest);
      NoFirstPlace(at, ticked, records);
      assert [] + ticked == ticked;
    }
  }

  predicate PlacesPastFirst(moved: seq<nat>, ticked: seq<string>, records: seq<Brainstorm>) {
    |moved| == |ticked| && (forall a, b :: 0 <= a < b < |moved| ==> moved[a] < moved[b]) &&
    (forall a :: 0 <= a < |moved| ==> 0 < moved[a] < |records| && ticked[a] == records[moved[a]].id) &&
    forall p :: 0 < p < |records| ==> (p in moved <==> Unfinished(records[p]))
  }

  lemma FirstPlace(moved: seq<nat>, ticked: seq<string>, records: seq<Brainstorm>)
    requires records != [] && PlacesPastFirst(moved, ticked, records) && Unfinished(records[0])
    ensures PlacesOf([0] + moved, [records[0].id] + ticked, records)
  {
    hide Unfinished, PlacesPastFirst;
    var at, ids := [0] + moved, [records[0].id] + ticked;
    forall a, b | 0 <= a < b < |at| ensures at[a] < at[b] {
      FirstRises(moved, ticked, records, a, b);
    }
    forall a | 0 <= a < |at| ensures |at| == |ids| && at[a] < |records| && ids[a] == records[at[a]].id {
      FirstNamed(moved, ticked, records, a);
    }
    forall p | 0 <= p < |records| ensures p in at <==> Unfinished(records[p]) {
      FirstMember(moved, p);
      assert PlacesPastFirst(moved, ticked, records);
      FirstListed(moved, ticked, records, p);
    }
  }

  lemma FirstMember(moved: seq<nat>, p: nat)
    ensures p in [0] + moved <==> p == 0 || p in moved
  {
  }

  lemma FirstListed(moved: seq<nat>, ticked: seq<string>, records: seq<Brainstorm>, p: nat)
    requires PlacesPastFirst(moved, ticked, records) && 0 < |records| && Unfinished(records[0]) && p < |records|
    ensures p == 0 || p in moved <==> Unfinished(records[p])
  {
  }

  lemma FirstRises(moved: seq<nat>, ticked: seq<string>, records: seq<Brainstorm>, a: nat, b: nat)
    requires PlacesPastFirst(moved, ticked, records) && a < b <= |moved|
    ensures ([0] + moved)[a] < ([0] + moved)[b]
  {
  }

  lemma FirstNamed(moved: seq<nat>, ticked: seq<string>, records: seq<Brainstorm>, a: nat)
    requires PlacesPastFirst(moved, ticked, records) && records != [] && a <= |moved|
    ensures |moved| == |ticked| && ([0] + moved)[a] < |records|
    ensures ([records[0].id] + ticked)[a] == records[([0] + moved)[a]].id
  {
  }

  lemma NoFirstPlace(moved: seq<nat>, ticked: seq<string>, records: seq<Brainstorm>)
    requires records != [] && PlacesPastFirst(moved, ticked, records) && !Unfinished(records[0])
    ensures PlacesOf(moved, ticked, records)
  {
    hide Unfinished;
    assert 0 !in moved;
  }

  lemma LaterPlaces(rest: seq<nat>, moved: seq<nat>, ticked: seq<string>, records: seq<Brainstorm>)
    requires records != [] && PlacesOf(rest, ticked, records[1..])
    requires |moved| == |rest| && forall a :: 0 <= a < |moved| ==> moved[a] == rest[a] + 1
    requires forall p: nat :: p in moved <==> p > 0 && p - 1 in rest
    ensures PlacesPastFirst(moved, ticked, records)
  {
    hide Unfinished;
    forall p | 0 < p < |records| ensures p in moved <==> Unfinished(records[p]) {
      assert records[p] == records[1..][p - 1];
    }
  }

  lemma AdvanceableAre(store: Option<seq<Brainstorm>>)
    ensures if store.Some? then TicksUnfinished(Advanceable(store), store.value) else Advanceable(store) == []
  {
    if store.Some? {
      var at := UnfinishedPlaces(store.value);
    }
  }

  /** Where a poll is waiting: `Finishing` is over but for the callback that clears `activePoll`. */
  datatype Phase =
    | AwaitingSupervisor
    | AwaitingTick(store: Option<seq<Brainstorm>>, todo: seq<string>, failed: bool)
    | Finishing

  datatype Stage = Supervisor | Brainstorms

  /** What has happened, in order. */
  datatype Note =
    | Started(poll: nat)
    | SupervisorRan(poll: nat, threw: bool)
    | Ticked(poll: nat, id: string, threw: bool)
    | Ended(poll: nat, store: Option<seq<Brainstorm>>, failed: bool)
    | IncidentAttempted(stage: Stage)
    | Stopped

  /** The variables of the runtime, the polls and timers outstanding, and the history. */
  datatype Loop = Loop(
    stopped: bool, timer: Option<nat>, activePoll: Option<nat>, supervisorFailing: bool, brainstormsFailing: bool,
    polls: map<nat, Phase>, pending: set<nat>, pollCount: nat, timerCount: nat, log: seq<Note>)

  // ----- The code between two awaits

  function StartPoll(l: Loop): Loop {
    var k := l.pollCount;
    if l.stopped then
      l.(pollCount := k + 1, activePoll := Some(k), polls := l.polls[k := Finishing])
    else
      l.(pollCount := k + 1, activePoll := Some(k), polls := l.polls[k := AwaitingSupervisor],
         log := l.log + [Started(k)])
  }

  function RecordSupervisor(l: Loop, k: nat, threw: bool): Loop {
    var noted := l.(log := l.log + [SupervisorRan(k, threw)], supervisorFailing := threw);
    if threw && !l.supervisorFailing then noted.(log := noted.log + [IncidentAttempted(Supervisor)]) else noted
  }

  function RecordBrainstorms(l: Loop, k: nat, store: Option<seq<Brainstorm>>, failed: bool): Loop {
    var noted := l.(log := l.log + [Ended(k, store, failed)], brainstormsFailing := failed);
    if failed && !l.brainstormsFailing then noted.(log := noted.log + [IncidentAttempted(Brainstorms)]) else noted
  }

  function Schedule(l: Loop): Loop {
    if l.stopped then l
    else l.(timer := Some(l.timerCount), timerCount := l.timerCount + 1, pending := l.pending + {l.timerCount})
  }

  function EndPoll(l: Loop, k: nat, store: Option<seq<Brainstorm>>, failed: bool): Loop {
    var done := Schedule(RecordBrainstorms(l, k, store, failed));
    done.(polls := done.polls[k := Finishing])
  }

  /** On to the next tick, or to the end. */
  function Continue(l: Loop, k: nat, store: Option<seq<Brainstorm>>, todo: seq<string>, failed: bool): Loop {
    if todo == [] then EndPoll(l, k, store, failed)
    else l.(polls := l.polls[k := AwaitingTick(store, todo, failed)])
  }

  function AfterSupervisor(l: Loop, k: nat, threw: bool, store: Option<seq<Brainstorm>>): Loop {
    Continue(RecordSupervisor(l, k, threw), k, store, Advanceable(store), store.None?)
  }

  function AfterTick(l: Loop, k: nat, threw: bool): Loop
    requires k in l.polls && l.polls[k].AwaitingTick? && l.polls[k].todo != []
  {
    var p := l.polls[k];
    Continue(l.(log := l.log + [Ticked(k, p.todo[0], threw)]), k, p.store, p.todo[1..], p.failed || threw)
  }

  function AfterPoll(l: Loop, k: nat): Loop { l.(activePoll := None, polls := l.polls - {k}) }

  function Fire(l: Loop, t: nat): Loop { StartPoll(l.(pending := l.pending - {t})) }

  function Stop(l: Loop): Loop {
    if l.stopped then l
    else
      l.(stopped := true, pending := if l.timer.Some? then l.pending - {l.timer.value} else l.pending,
         log := l.log + [Stopped])
  }

  // ----- What can come next

  datatype Event =
    | SupervisorSettles(poll: nat, threw: bool, store: Option<seq<Brainstorm>>)
    | TickSettles(poll: nat, threw: bool)
    | FinallyRuns(poll: nat)
    | TimerFires(timer: nat)
    | StopCalled

  /** A timer fires only once the callbacks of settled promises have all run. */
  predicate Enabled(l: Loop, e: Event) {
    match e
    case SupervisorSettles(k, _, _) => k in l.polls && l.polls[k].AwaitingSupervisor?
    case TickSettles(k, _) => k in l.polls && l.polls[k].AwaitingTick? && l.polls[k].todo != []
    case FinallyRuns(k) => k in l.polls && l.polls[k].Finishing?
    case TimerFires(t) => t in l.pending && forall k <- l.polls :: !l.polls[k].Finishing?
    case StopCalled => true
  }

  function Step(l: Loop, e: Event): Loop
    requires Enabled(l, e)
  {
    match e
    case SupervisorSettles(k, threw, store) => AfterSupervisor(l, k, threw, store)
    case TickSettles(k, threw) => AfterTick(l, k, threw)
    case FinallyRuns(k) => AfterPoll(l, k)
    case TimerFires(t) => Fire(l, t)
    case StopCalled => Stop(l)
  }

  /** Creating the runtime starts the first poll at once. */
  function Init(): Loop {
    StartPoll(Loop(false, None, None, false, false, map[], {}, 0, 0, []))
  }

  /** Every state that some sequence of events leads to. */
  ghost predicate Run(states: seq<Loop>, events: seq<Event>) {
    |states| == |events| + 1 && states[0] == Init() &&
    forall n :: 0 <= n < |events| ==> Follows(states[n], events[n], states[n + 1])
  }

  ghost predicate Follows(l: Loop, e: Event, next: Loop) { Enabled(l, e) && next == Step(l, e) }

  // ----- One poll at a time

  predicate Live(l: Loop, k: nat) { k in l.polls && !l.polls[k].Finishing? }

  /** One poll in flight or one timer pending while running, nothing pending once stopped, and `activePoll` is right. */
  predicate SingleFlight(l: Loop) {
    l.polls.Keys == (if l.activePoll.Some? then {l.activePoll.value} else {}) &&
    (l.pending == {} || (l.timer.Some? && l.pending == {l.timer.value})) &&
    (l.stopped ==> l.pending == {}) &&
    (!l.stopped ==> (l.pending == {} <==> l.activePoll.Some? && Live(l, l.activePoll.value))) &&
    (forall k <- l.polls :: l.polls[k].AwaitingTick? ==> l.polls[k].todo != [])
  }

  lemma RecordKeepsFlight(l: Loop, k: nat, store: Option<seq<Brainstorm>>, failed: bool)
    ensures var r := RecordBrainstorms(l, k, store, failed);
      r.polls == l.polls && r.pending == l.pending && r.timer == l.timer && r.stopped == l.stopped &&
      r.activePoll == l.activePoll
  {
  }

  lemma ContinueSingleFlight(l: Loop, k: nat, store: Option<seq<Brainstorm>>, todo: seq<string>, failed: bool)
    requires SingleFlight(l) && Live(l, k)
    ensures SingleFlight(Continue(l, k, store, todo, failed))
  {
    hide RecordBrainstorms;
    var next := Continue(l, k, store, todo, failed);
    assert l.activePoll == Some(k) && l.pending == {};
    if todo == [] {
      RecordKeepsFlight(l, k, store, failed);
      assert next.polls == l.polls[k := Finishing];
    } else {
      assert next.polls == l.polls[k := AwaitingTick(store, todo, failed)];
    }
    assert next.polls.Keys == {k};
  }

  lemma StepSingleFlight(l: Loop, e: Event)
    requires SingleFlight(l) && Enabled(l, e)
    ensures SingleFlight(Step(l, e))
  {
    hide Continue, Advanceable;
    match e {
      case SupervisorSettles(k, threw, store) =>
        ContinueSingleFlight(RecordSupervisor(l, k, threw), k, store, Advanceable(store), store.None?);
      case TickSettles(k, threw) =>
        var p := l.polls[k];
        ContinueSingleFlight(l.(log := l.log + [Ticked(k, p.todo[0], threw)]), k, p.store, p.todo[1..],
                             p.failed || threw);
      case FinallyRuns(k) => assert l.activePoll == Some(k);
      case TimerFires(t) => assert l.polls.Keys == {};
      case StopCalled =>
    }
  }

  // ----- Incidents

  /** Whether each supervisor run threw, in order. */
  function SupervisorThrows(log: seq<Note>): seq<bool> {
    if log == [] then []
    else
      var last := log[|log| - 1];
      SupervisorThrows(log[..|log| - 1]) + if last.SupervisorRan? then [last.threw] else []
  }

  /** Whether each finished poll failed on its brainstorms, in order. */
  function BrainstormFailures(log: seq<Note>): seq<bool> {
    if log == [] then []
    else
      var last := log[|log| - 1];
      BrainstormFailures(log[..|log| - 1]) + if last.Ended? then [last.failed] else []
  }

  function Incidents(log: seq<Note>, stage: Stage): nat {
    if log == [] then 0
    else Incidents(log[..|log| - 1], stage) + if log[|log| - 1] == IncidentAttempted(stage) then 1 else 0
  }

  predicate EndsIn(s: seq<bool>, b: bool) { if s == [] then !b else s[|s| - 1] == b }

  /** How often a sequence goes from false to true, starting from false. */
  function Edges(s: seq<bool>): nat {
    if s == [] then 0
    else
      var before := s[..|s| - 1];
      Edges(before) + if s[|s| - 1] && EndsIn(before, false) then 1 else 0
  }

  predicate IncidentsAreEdges(l: Loop) {
    EndsIn(SupervisorThrows(l.log), l.supervisorFailing) &&
    EndsIn(BrainstormFailures(l.log), l.brainstormsFailing) &&
    Incidents(l.log, Supervisor) == Edges(SupervisorThrows(l.log)) &&
    Incidents(l.log, Brainstorms) == Edges(BrainstormFailures(l.log))
  }

  lemma NoteAdded(log: seq<Note>, n: Note)
    ensures SupervisorThrows(log + [n]) == SupervisorThrows(log) + if n.SupervisorRan? then [n.threw] else []
    ensures BrainstormFailures(log + [n]) == BrainstormFailures(log) + if n.Ended? then [n.failed] else []
    ensures forall stage ::
      Incidents(log + [n], stage) == Incidents(log, stage) + if n == IncidentAttempted(stage) then 1 else 0
  {
    assert (log + [n])[..|log + [n]| - 1] == log;
  }

  lemma EdgeAdded(s: seq<bool>, b: bool)
    ensures Edges(s + [b]) == Edges(s) + if b && EndsIn(s, false) then 1 else 0
    ensures EndsIn(s + [b], b)
  {
    assert (s + [b])[..|s + [b]| - 1] == s;
  }

  lemma SupervisorIncident(l: Loop, k: nat, threw: bool)
    requires IncidentsAreEdges(l)
    ensures IncidentsAreEdges(RecordSupervisor(l, k, threw))
  {
    hide SupervisorThrows, BrainstormFailures, Incidents, Edges;
    NoteAdded(l.log, SupervisorRan(k, threw));
    EdgeAdded(SupervisorThrows(l.log), threw);
    var log := l.log + [SupervisorRan(k, threw)];
    NoteAdded(log, IncidentAttempted(Supervisor));
    assert BrainstormFailures(l.log) + [] == BrainstormFailures(l.log);
    assert SupervisorThrows(log) + [] == SupervisorThrows(log);
    assert BrainstormFailures(log) + [] == BrainstormFailures(log);
  }

  lemma BrainstormIncident(l: Loop, k: nat, store: Option<seq<Brainstorm>>, failed: bool)
    requires IncidentsAreEdges(l)
    ensures IncidentsAreEdges(RecordBrainstorms(l, k, store, failed))
  {
    hide SupervisorThrows, BrainstormFailures, Incidents, Edges;
    NoteAdded(l.log, Ended(k, store, failed));
    EdgeAdded(BrainstormFailures(l.log), failed);
    var log := l.log + [Ended(k, store, failed)];
    NoteAdded(log, IncidentAttempted(Brainstorms));
    assert SupervisorThrows(l.log) + [] == SupervisorThrows(l.log);
    assert SupervisorThrows(log) + [] == SupervisorThrows(log);
    assert BrainstormFailures(log) + [] == BrainstormFailures(log);
  }

  lemma PlainNote(l: Loop, n: Note)
    requires IncidentsAreEdges(l) && (n.Started? || n.Ticked? || n.Stopped?)
    ensures IncidentsAreEdges(l.(log := l.log + [n]))
  {
    hide SupervisorThrows, BrainstormFailures, Incidents, Edges;
    NoteAdded(l.log, n);
    assert SupervisorThrows(l.log) + [] == SupervisorThrows(l.log);
    assert BrainstormFailures(l.log) + [] == BrainstormFailures(l.log);
  }

  lemma ContinueIncidents(l: Loop, k: nat, store: Option<seq<Brainstorm>>, todo: seq<string>, failed: bool)
    requires IncidentsAreEdges(l)
    ensures IncidentsAreEdges(Continue(l, k, store, todo, failed))
  {
    hide SupervisorThrows, BrainstormFailures, Incidents, Edges;
    BrainstormIncident(l, k, store, failed);
  }

  lemma StepIncidents(l: Loop, e: Event)
    requires IncidentsAreEdges(l) && Enabled(l, e)
    ensures IncidentsAreEdges(Step(l, e))
  {
    hide SupervisorThrows, BrainstormFailures, Incidents, Edges, Continue, Advanceable;
    match e {
      case SupervisorSettles(k, threw, store) =>
        SupervisorIncident(l, k, threw);
        ContinueIncidents(RecordSupervisor(l, k, threw), k, store, Advanceable(store), store.None?);
      case TickSettles(k, threw) =>
        var p := l.polls[k];
        PlainNote(l, Ticked(k, p.todo[0], threw));
        ContinueIncidents(l.(log := l.log + [Ticked(k, p.todo[0], threw)]), k, p.store, p.todo[1..],
                          p.failed || threw);
      case FinallyRuns(k) =>
      case TimerFires(t) => PlainNote(l, Started(l.pollCount));
      case StopCalled => PlainNote(l, Stopped);
    }
  }

  // ----- Ticks, and stopping

  /** What poll `k` has ticked, in order. */
  function TickedBy(log: seq<Note>, k: nat): seq<string> {
    if log == [] then []
    else
      var last := log[|log| - 1];
      TickedBy(log[..|log| - 1], k) + if last.Ticked? && last.poll == k then [last.id] else []
  }

  /** Whether one of poll `k`'s ticks threw. */
  predicate SomeTickThrew(log: seq<Note>, k: nat) {
    exists i :: 0 <= i < |log| && log[i].Ticked? && log[i].poll == k && log[i].threw
  }

  /** A poll that ended ticked exactly what the store it read offered, and failed just when it should have. */
  predicate EndedProperly(log: seq<Note>, n: Note) {
    n.Ended? ==>
      TickedBy(log, n.poll) == Advanceable(n.store) && (n.failed <==> n.store.None? || SomeTickThrew(log, n.poll))
  }

  /** The polls in flight are on their way to ending properly. */
  predicate OnItsWay(l: Loop, k: nat)
    requires k in l.polls
  {
    match l.polls[k]
    case AwaitingSupervisor => TickedBy(l.log, k) == [] && !SomeTickThrew(l.log, k)
    case AwaitingTick(store, todo, failed) =>
      TickedBy(l.log, k) + todo == Advanceable(store) && (failed <==> store.None? || SomeTickThrew(l.log, k))
    case Finishing => true
  }

  predicate NoneTickedYet(log: seq<Note>, k: nat) { TickedBy(log, k) == [] && !SomeTickThrew(log, k) }

  /** No poll gets past its first check once the loop is stopped. */
  predicate NoStartAfterStop(log: seq<Note>) {
    forall i, j :: 0 <= i < j < |log| && log[i].Stopped? ==> !log[j].Started?
  }

  ghost predicate TicksComplete(l: Loop) {
    (forall k :: k >= l.pollCount ==> NoneTickedYet(l.log, k)) &&
    (forall k <- l.polls :: k < l.pollCount && OnItsWay(l, k)) &&
    (forall i :: 0 <= i < |l.log| && l.log[i].Ended? ==>
      l.log[i].poll < l.pollCount && !Live(l, l.log[i].poll) && EndedProperly(l.log, l.log[i]))
  }

  predicate HasStopped(log: seq<Note>) { exists i :: 0 <= i < |log| && log[i].Stopped? }

  predicate StopIsFinal(stopped: bool, log: seq<Note>) { NoStartAfterStop(log) && (stopped <==> HasStopped(log)) }

  lemma NoteAfterStop(stopped: bool, log: seq<Note>, n: Note)
    requires StopIsFinal(stopped, log) && (n.Started? ==> !stopped)
    ensures StopIsFinal(stopped || n.Stopped?, log + [n])
  {
    var longer := log + [n];
    assert longer[|log|] == n && forall i :: 0 <= i < |log| ==> longer[i] == log[i];
    if stopped {
      var i :| 0 <= i < |log| && log[i].Stopped?;
      assert longer[i].Stopped?;
    }
  }

  lemma StepStopIsFinal(l: Loop, e: Event)
    requires StopIsFinal(l.stopped, l.log) && Enabled(l, e)
    ensures StopIsFinal(Step(l, e).stopped, Step(l, e).log)
  {
    hide StopIsFinal, Advanceable;
    match e {
      case SupervisorSettles(k, threw, store) =>
        var ran := l.log + [SupervisorRan(k, threw)];
        NoteAfterStop(l.stopped, l.log, SupervisorRan(k, threw));
        NoteAfterStop(l.stopped, ran, IncidentAttempted(Supervisor));
        var noted := RecordSupervisor(l, k, threw);
        NoteAfterStop(l.stopped, noted.log, Ended(k, store, store.None?));
        NoteAfterStop(l.stopped, noted.log + [Ended(k, store, store.None?)], IncidentAttempted(Brainstorms));
      case TickSettles(k, threw) =>
        var p := l.polls[k];
        NoteAfterStop(l.stopped, l.log, Ticked(k, p.todo[0], threw));
        var ticked := l.log + [Ticked(k, p.todo[0], threw)];
        NoteAfterStop(l.stopped, ticked, Ended(k, p.store, p.failed || threw));
        NoteAfterStop(l.stopped, ticked + [Ended(k, p.store, p.failed || threw)], IncidentAttempted(Brainstorms));
      case FinallyRuns(k) =>
      case TimerFires(t) =>
        if !l.stopped {
          NoteAfterStop(l.stopped, l.log, Started(l.pollCount));
        }
      case StopCalled => NoteAfterStop(l.stopped, l.log, Stopped);
    }
  }

  lemma TickNoteAdded(log: seq<Note>, n: Note, k: nat)
    ensures TickedBy(log + [n], k) == TickedBy(log, k) + if n.Ticked? && n.poll == k then [n.id] else []
    ensures SomeTickThrew(log + [n], k) <==> SomeTickThrew(log, k) || (n.Ticked? && n.poll == k && n.threw)
  {
    var longer := log + [n];
    assert longer[..|longer| - 1] == log;
    forall i | 0 <= i < |log| ensures longer[i] == log[i] {
    }
    assert longer[|log|] == n;
  }

  /** Notes that are not ticks leave every poll's ticks as they are. */
  lemma OtherNote(log: seq<Note>, n: Note, k: nat)
    requires !n.Ticked?
    ensures TickedBy(log + [n], k) == TickedBy(log, k)
    ensures SomeTickThrew(log + [n], k) <==> SomeTickThrew(log, k)
  {
    TickNoteAdded(log, n, k);
  }

  /** A step that notes no tick, ends no poll, and leaves the polls as they are. */
  lemma QuietNote(l: Loop, n: Note)
    requires TicksComplete(l) && !n.Ticked? && !n.Ended?
    ensures TicksComplete(l.(log := l.log + [n]))
  {
    hide TickedBy, SomeTickThrew, Advanceable;
    var next := l.(log := l.log + [n]);
    forall k ensures TickedBy(next.log, k) == TickedBy(l.log, k)
      ensures SomeTickThrew(next.log, k) == SomeTickThrew(l.log, k)
    {
      OtherNote(l.log, n, k);
    }
    forall k | k >= next.pollCount ensures NoneTickedYet(next.log, k) {
      assert NoneTickedYet(l.log, k);
    }
    forall k | k in next.polls ensures k < next.pollCount && OnItsWay(next, k) {
      assert OnItsWay(l, k);
    }
    forall i | 0 <= i < |next.log| && next.log[i].Ended?
      ensures next.log[i].poll < l.pollCount && !Live(next, next.log[i].poll) && EndedProperly(next.log, next.log[i])
    {
      assert next.log[i] == l.log[i] && EndedProperly(l.log, l.log[i]);
    }
  }

  /** Poll `k` awaiting its next tick, possibly with none left. */
  function Awaiting(l: Loop, k: nat, store: Option<seq<Brainstorm>>, todo: seq<string>, failed: bool): Loop {
    l.(polls := l.polls[k := AwaitingTick(store, todo, failed)])
  }

  lemma ReadyToTick(l: Loop, k: nat, store: Option<seq<Brainstorm>>)
    requires TicksComplete(l) && k in l.polls && l.polls[k].AwaitingSupervisor?
    ensures TicksComplete(Awaiting(l, k, store, Advanceable(store), store.None?))
  {
    hide TickedBy, SomeTickThrew, Advanceable;
    var next := Awaiting(l, k, store, Advanceable(store), store.None?);
    assert OnItsWay(l, k);
    assert [] + Advanceable(store) == Advanceable(store);
    forall j | j in next.polls ensures j < next.pollCount && OnItsWay(next, j) {
      assert j in l.polls && OnItsWay(l, j);
    }
    forall i | 0 <= i < |next.log| && next.log[i].Ended? ensures !Live(next, next.log[i].poll) {
      assert !Live(l, l.log[i].poll);
    }
  }

  lemma OneTick(l: Loop, k: nat, threw: bool)
    requires TicksComplete(l) && k in l.polls && l.polls[k].AwaitingTick? && l.polls[k].todo != []
    ensures var p := l.polls[k];
      TicksComplete(Awaiting(l.(log := l.log + [Ticked(k, p.todo[0], threw)]), k, p.store, p.todo[1..],
                             p.failed || threw))
  {
    hide TickedBy, SomeTickThrew, Advanceable;
    var p := l.polls[k];
    var n := Ticked(k, p.todo[0], threw);
    var next := Awaiting(l.(log := l.log + [n]), k, p.store, p.todo[1..], p.failed || threw);
    forall j ensures TickedBy(next.log, j) == TickedBy(l.log, j) + if j == k then [n.id] else []
      ensures SomeTickThrew(next.log, j) <==> SomeTickThrew(l.log, j) || (j == k && threw)
    {
      TickNoteAdded(l.log, n, j);
    }
    forall j | j >= next.pollCount ensures NoneTickedYet(next.log, j) {
      assert NoneTickedYet(l.log, j);
    }
    forall j | j in next.polls ensures j < next.pollCount && OnItsWay(next, j) {
      assert OnItsWay(l, j);
      if j == k {
        assert TickedBy(l.log, k) + [p.todo[0]] + p.todo[1..] == TickedBy(l.log, k) + p.todo;
      } else {
        assert TickedBy(l.log, j) + [] == TickedBy(l.log, j) && next.polls[j] == l.polls[j];
      }
    }
    forall i | 0 <= i < |next.log| && next.log[i].Ended?
      ensures next.log[i].poll < l.pollCount && !Live(next, next.log[i].poll) && EndedProperly(next.log, next.log[i])
    {
      EndedBefore(l, i);
      assert next.log[i] == l.log[i];
      assert TickedBy(l.log, l.log[i].poll) + [] == TickedBy(l.log, l.log[i].poll);
    }
  }

  lemma EndedBefore(l: Loop, i: nat)
    requires TicksComplete(l) && i < |l.log| && l.log[i].Ended?
    ensures l.log[i].poll < l.pollCount && !Live(l, l.log[i].poll) && EndedProperly(l.log, l.log[i])
  {
    hide EndedProperly, Live, OnItsWay, NoneTickedYet;
  }

  lemma EndTicks(l: Loop, k: nat, store: Option<seq<Brainstorm>>, failed: bool)
    requires TicksComplete(Awaiting(l, k, store, [], failed))
    ensures TicksComplete(EndPoll(l, k, store, failed))
  {
    hide TickedBy, SomeTickThrew, Advanceable;
    var before := Awaiting(l, k, store, [], failed);
    var ended := l.(log := l.log + [Ended(k, store, failed)], polls := l.polls[k := Finishing]);
    assert OnItsWay(before, k);
    assert TickedBy(l.log, k) + [] == TickedBy(l.log, k);
    forall j ensures TickedBy(ended.log, j) == TickedBy(l.log, j)
      ensures SomeTickThrew(ended.log, j) == SomeTickThrew(l.log, j)
    {
      OtherNote(l.log, Ended(k, store, failed), j);
    }
    forall j | j >= ended.pollCount ensures NoneTickedYet(ended.log, j) {
      assert NoneTickedYet(before.log, j);
    }
    forall j | j in ended.polls ensures j < ended.pollCount && OnItsWay(ended, j) {
      assert OnItsWay(before, j);
    }
    forall i | 0 <= i < |ended.log| && ended.log[i].Ended?
      ensures ended.log[i].poll < l.pollCount && !Live(ended, ended.log[i].poll)
      ensures EndedProperly(ended.log, ended.log[i])
    {
      if i < |l.log| {
        assert ended.log[i] == before.log[i] && EndedProperly(before.log, before.log[i]);
      }
    }
    QuietNote(ended, IncidentAttempted(Brainstorms));
    SameTicks(ended, EndPoll(l, k, store, failed));
    if failed && !l.brainstormsFailing {
      SameTicks(ended.(log := ended.log + [IncidentAttempted(Brainstorms)]), EndPoll(l, k, store, failed));
    }
  }

  lemma SameTicks(l: Loop, m: Loop)
    requires TicksComplete(l)
    ensures l.log == m.log && l.polls == m.polls && l.pollCount == m.pollCount ==> TicksComplete(m)
  {
    hide TickedBy, SomeTickThrew, Advanceable;
    if l.log == m.log && l.polls == m.polls && l.pollCount == m.pollCount {
      forall k | k in m.polls ensures OnItsWay(m, k) {
        assert OnItsWay(l, k);
      }
      forall i | 0 <= i < |m.log| && m.log[i].Ended? ensures !Live(m, m.log[i].poll) {
        assert !Live(l, l.log[i].poll);
      }
    }
  }

  lemma ContinueTicks(l: Loop, k: nat, store: Option<seq<Brainstorm>>, todo: seq<string>, failed: bool)
    requires TicksComplete(Awaiting(l, k, store, todo, failed))
    ensures TicksComplete(Continue(l, k, store, todo, failed))
  {
    hide TicksComplete, EndPoll;
    if todo == [] {
      EndTicks(l, k, store, failed);
    }
  }

  lemma StartTicks(l: Loop)
    requires TicksComplete(l)
    ensures TicksComplete(StartPoll(l))
  {
    hide TickedBy, SomeTickThrew, Advanceable;
    var k := l.pollCount;
    QuietNote(l, Started(k));
    var noted := if l.stopped then l else l.(log := l.log + [Started(k)]);
    var next := StartPoll(l);
    assert NoneTickedYet(noted.log, k);
    forall j | j in next.polls ensures j < next.pollCount && OnItsWay(next, j) {
      if j != k {
        assert OnItsWay(noted, j);
      }
    }
    forall i | 0 <= i < |next.log| && next.log[i].Ended?
      ensures next.log[i].poll < next.pollCount && !Live(next, next.log[i].poll)
      ensures EndedProperly(next.log, next.log[i])
    {
      assert next.log[i] == noted.log[i] && !Live(noted, noted.log[i].poll) && EndedProperly(noted.log, noted.log[i]);
    }
  }

  lemma FinallyTicks(l: Loop, k: nat)
    requires TicksComplete(l)
    ensures TicksComplete(AfterPoll(l, k))
  {
    hide TickedBy, SomeTickThrew, Advanceable;
    var next := AfterPoll(l, k);
    forall j | j in next.polls ensures j < next.pollCount && OnItsWay(next, j) {
      assert OnItsWay(l, j);
    }
    forall i | 0 <= i < |next.log| && next.log[i].Ended? ensures !Live(next, next.log[i].poll) {
      assert !Live(l, l.log[i].poll);
    }
  }

  lemma StepTicks(l: Loop, e: Event)
    requires TicksComplete(l) && Enabled(l, e)
    ensures TicksComplete(Step(l, e))
  {
    hide TicksComplete, Continue, Advanceable, StartPoll;
    match e {
      case SupervisorSettles(k, threw, store) =>
        QuietNote(l, SupervisorRan(k, threw));
        var ran := l.(log := l.log + [SupervisorRan(k, threw)]);
        QuietNote(ran, IncidentAttempted(Supervisor));
        var noted := RecordSupervisor(l, k, threw);
        SameTicks(ran, noted);
        SameTicks(ran.(log := ran.log + [IncidentAttempted(Supervisor)]), noted);
        ReadyToTick(noted, k, store);
        ContinueTicks(noted, k, store, Advanceable(store), store.None?);
      case TickSettles(k, threw) =>
        var p := l.polls[k];
        OneTick(l, k, threw);
        ContinueTicks(l.(log := l.log + [Ticked(k, p.todo[0], threw)]), k, p.store, p.todo[1..], p.failed || threw);
      case FinallyRuns(k) => FinallyTicks(l, k);
      case TimerFires(t) =>
        SameTicks(l, l.(pending := l.pending - {t}));
        StartTicks(l.(pending := l.pending - {t}));
      case StopCalled =>
        QuietNote(l, Stopped);
        SameTicks(l.(log := l.log + [Stopped]), Stop(l));
    }
  }

  // ----- Every run

  ghost predicate LoopInv(l: Loop) {
    SingleFlight(l) && IncidentsAreEdges(l) && StopIsFinal(l.stopped, l.log) && TicksComplete(l)
  }

  lemma InitInv()
    ensures LoopInv(Init())
  {
    hide TicksComplete, IncidentsAreEdges, StopIsFinal, StartPoll;
    var l := Loop(false, None, None, false, false, map[], {}, 0, 0, []);
    assert TicksComplete(l) by { NothingYet(l); }
    StartTicks(l);
    assert IncidentsAreEdges(Init()) by { InitIncidents(l); }
    assert StopIsFinal(false, []) by { NothingStopped(); }
    NoteAfterStop(false, [], Started(0));
    InitSingle();
  }

  lemma NothingStopped()
    ensures StopIsFinal(false, [])
  {
  }

  lemma NothingYet(l: Loop)
    requires l.log == [] && l.polls == map[]
    ensures TicksComplete(l)
  {
  }

  lemma InitIncidents(l: Loop)
    requires l.log == [] && !l.supervisorFailing && !l.brainstormsFailing
    ensures IncidentsAreEdges(StartPoll(l))
  {
    assert IncidentsAreEdges(l);
    PlainNote(l, Started(l.pollCount));
  }

  lemma InitSingle()
    ensures SingleFlight(Init()) && Init().log == [] + [Started(0)] && !Init().stopped
  {
    assert Init().polls == map[0 := AwaitingSupervisor];
  }

  lemma {:induction false} RunInv(states: seq<Loop>, events: seq<Event>, n: nat)
    requires Run(states, events) && n < |states|
    ensures LoopInv(states[n])
  {
    hide SingleFlight, IncidentsAreEdges, StopIsFinal, TicksComplete, Step, Enabled;
    if n == 0 {
      InitInv();
    } else {
      RunInv(states, events, n - 1);
      assert Follows(states[n - 1], events[n - 1], states[n]);
      StepSingleFlight(states[n - 1], events[n - 1]);
      StepIncidents(states[n - 1], events[n - 1]);
      StepStopIsFinal(states[n - 1], events[n - 1]);
      StepTicks(states[n - 1], events[n - 1]);
    }
  }

  /**
   * The loop never comes to rest before it is stopped: what is outstanding can always happen. Nothing runs on after
   * the stop either, but for the poll it was stopped in.
   */
  lemma NeverStuck(states: seq<Loop>, events: seq<Event>, n: nat)
    requires Run(states, events) && n < |states|
    ensures var l := states[n];
      (!l.stopped ==> exists e :: e != StopCalled && Enabled(l, e)) &&
      (l.polls == map[] ==> if l.stopped then forall e :: Enabled(l, e) ==> e == StopCalled
                            else l.timer.Some? && Enabled(l, TimerFires(l.timer.value)))
  {
    RunInv(states, events, n);
    var l := states[n];
    hide TicksComplete, IncidentsAreEdges, StopIsFinal;
    hide Run;
    if l.activePoll.Some? {
      var k := l.activePoll.value;
      assert k in l.polls;
      match l.polls[k] {
        case AwaitingSupervisor => assert Enabled(l, SupervisorSettles(k, false, None));
        case AwaitingTick(_, _, _) => assert Enabled(l, TickSettles(k, false));
        case Finishing => assert Enabled(l, FinallyRuns(k));
      }
    } else {
      assert l.polls.Keys == {};
      assert !l.stopped ==> Enabled(l, TimerFires(l.timer.value));
    }
  }

  /** Polls in flight or about to start. */
  function Outstanding(l: Loop): nat {
    |set k | k in l.polls && !l.polls[k].Finishing?| + |l.pending|
  }

  /**
   * In every state of every run: until it is stopped the loop has exactly one poll in flight or scheduled, and then at
   * most the one it was stopped in; no poll begins after the stop; every poll that ended ticked exactly the brainstorms
   * of the store it read that are reserved and not over, each once and in order, whichever ticks threw, and none when
   * it could not read the store; and incidents are attempted exactly when failing begins.
   */
  lemma PollSafety(states: seq<Loop>, events: seq<Event>, n: nat)
    requires Run(states, events) && n < |states|
    ensures var l := states[n];
      Outstanding(l) <= 1 && (!l.stopped ==> Outstanding(l) == 1) && (l.stopped ==> l.pending == {}) &&
      (l.activePoll.Some? <==> l.polls != map[]) &&
      (forall i, j :: 0 <= i < j < |l.log| && l.log[i].Stopped? ==> !l.log[j].Started?) &&
      (forall i :: 0 <= i < |l.log| && l.log[i].Ended? ==>
         var ticked := TickedBy(l.log, l.log[i].poll);
         (if l.log[i].store.Some? then TicksUnfinished(ticked, l.log[i].store.value) else ticked == []) &&
         (l.log[i].failed <==> l.log[i].store.None? || SomeTickThrew(l.log, l.log[i].poll))) &&
      Incidents(l.log, Supervisor) == Edges(SupervisorThrows(l.log)) &&
      Incidents(l.log, Brainstorms) == Edges(BrainstormFailures(l.log))
  {
    hide Run, TickedBy, SomeTickThrew, Advanceable, Edges, Incidents, SupervisorThrows, BrainstormFailures;
    RunInv(states, events, n);
    OneOutstanding(states[n]);
    forall store: Option<seq<Brainstorm>>
      ensures if store.Some? then TicksUnfinished(Advanceable(store), store.value) else Advanceable(store) == []
    {
      AdvanceableAre(store);
    }
  }

  lemma OneOutstanding(l: Loop)
    requires SingleFlight(l)
    ensures Outstanding(l) <= 1 && (!l.stopped ==> Outstanding(l) == 1)
    ensures l.activePoll.Some? <==> l.polls != map[]
  {
    var live := set k | k in l.polls && !l.polls[k].Finishing?;
    if l.activePoll.Some? {
      var k := l.activePoll.value;
      assert live == if Live(l, k) then {k} else {};
      assert k in l.polls;
    } else {
      assert live == {};
    }
  }
}
