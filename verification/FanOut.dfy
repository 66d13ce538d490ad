/** The concurrent export of a report to all its outputs: one goroutine per output, a wait group,
    and a buffered channel that the exporter drains after all goroutines are done. */
module FanOut {
  import opened Prelude

  datatype ExportOutcome = Exported(details: string) | ExportFailed(error: string)

  datatype OutputPhase = OutputCompleted | OutputFailed

  datatype OutputStatus = OutputStatus(name: string, phase: OutputPhase, details: string)

  function StatusOf(name: string, outcome: ExportOutcome): OutputStatus {
    match outcome
    case Exported(details) => OutputStatus(name, OutputCompleted, details)
    case ExportFailed(error) => OutputStatus(name, OutputFailed, error)
  }

  // ---------------------------------------------------------------- the outputs

  datatype OutputType = ConfigMap | Unsupported(name: string)

  /** An entry of the exporter's configuration; `config` is absent when it does not decode. */
  datatype OutputConfig = OutputConfig(name: string, otype: OutputType, config: Option<string>)

  predicate Usable(o: OutputConfig) { o.otype == ConfigMap && o.config.Some? }

  /** The outputs by name, or nothing if one of the entries cannot be used. Of several entries
      with one name the last counts. */
  method CreateOutputs(configs: seq<OutputConfig>) returns (outputs: Option<map<string, string>>)
    ensures outputs.Some? <==> forall o :: o in configs ==> o.otype == ConfigMap && o.config.Some?
    ensures outputs.Some? ==>
      && (forall n :: n in outputs.value <==> exists i :: 0 <= i < |configs| && configs[i].name == n)
      && (forall i :: 0 <= i < |configs| && (forall j :: i < j < |configs| ==> configs[j].name != configs[i].name) ==>
            configs[i].config.Some? && outputs.value[configs[i].name] == configs[i].config.value)
  {
    var result: map<string, string> := map[];
    for i := 0 to |configs|
      invariant forall j :: 0 <= j < i ==> Usable(configs[j])
      invariant forall n :: n in result <==> exists j :: 0 <= j < i && configs[j].name == n
      invariant forall j :: 0 <= j < i && (forall k :: j < k < i ==> configs[k].name != configs[j].name) ==>
        result[configs[j].name] == configs[j].config.value
    {
      match configs[i].otype {
        case ConfigMap =>
          if configs[i].config.None? {
            assert configs[i] in configs;
            return None;
          }
          result := result[configs[i].name := configs[i].config.value];
        case Unsupported(_) =>
          assert configs[i] in configs;
          return None;
      }
    }
    outputs := Some(result);
  }

  // ---------------------------------------------------------------- the protocol

  datatype Stage = Spawning | Waiting | Closing | Draining | Finished

  /** Where the goroutine of an output is: not spawned yet, exporting, about to send its status,
      about to leave the wait group, or gone. */
  datatype Worker = Unstarted | Exporting | Sending | Leaving | Gone

  datatype Net = Net(stage: Stage, workers: map<string, Worker>, group: int,
                     buffer: seq<OutputStatus>, closed: bool, received: seq<OutputStatus>)

  type Outcomes = map<string, ExportOutcome>

  datatype Action =
    | Spawn(name: string) | AllSpawned
    | ExportEnds(name: string) | Send(name: string) | Leave(name: string)
    | WaitReturns | Close | Receive | Finish

  predicate Is(net: Net, n: string, w: Worker) { n in net.workers && net.workers[n] == w }

  function Start(outs: Outcomes): Net {
    Net(Spawning, map n | n in outs :: Unstarted, 0, [], false, [])
  }

  /** A send waits for room in the channel, and the main goroutine for the wait group. */
  predicate Enabled(outs: Outcomes, net: Net, a: Action) {
    match a
    case Spawn(n) => net.stage == Spawning && Is(net, n, Unstarted)
    case AllSpawned => net.stage == Spawning && forall n :: n in net.workers ==> net.workers[n] != Unstarted
    case ExportEnds(n) => Is(net, n, Exporting)
    case Send(n) => Is(net, n, Sending) && n in outs && |net.buffer| < |outs|
    case Leave(n) => Is(net, n, Leaving)
    case WaitReturns => net.stage == Waiting && net.group == 0
    case Close => net.stage == Closing
    case Receive => net.stage == Draining && net.buffer != []
    case Finish => net.stage == Draining && net.buffer == [] && net.closed
  }

  function Next(outs: Outcomes, net: Net, a: Action): Net
    requires Enabled(outs, net, a)
  {
    match a
    case Spawn(n) => net.(workers := net.workers[n := Exporting], group := net.group + 1)
    case AllSpawned => net.(stage := Waiting)
    case ExportEnds(n) => net.(workers := net.workers[n := Sending])
    case Send(n) => net.(workers := net.workers[n := Leaving], buffer := net.buffer + [StatusOf(n, outs[n])])
    case Leave(n) => net.(workers := net.workers[n := Gone], group := net.group - 1)
    case WaitReturns => net.(stage := Closing)
    case Close => net.(closed := true, stage := Draining)
    case Receive => net.(buffer := net.buffer[1..], received := net.received + [net.buffer[0]])
    case Finish => net.(stage := Finished)
  }

  // ---------------------------------------------------------------- the invariant

  function At(workers: map<string, Worker>, w: Worker): set<string> {
    set n | n in workers && workers[n] == w
  }

  /** One status for each of some outputs. */
  ghost predicate StatusesOf(outs: Outcomes, names: set<string>, statuses: seq<OutputStatus>) {
    && names <= outs.Keys
    && (forall i, j :: 0 <= i < j < |statuses| ==> statuses[i].name != statuses[j].name)
    && (forall i :: 0 <= i < |statuses| ==>
          statuses[i].name in names && statuses[i] == StatusOf(statuses[i].name, outs[statuses[i].name]))
    && (forall n :: n in names ==> StatusOf(n, outs[n]) in statuses)
  }

  /** The outputs whose status is on its way or has arrived. */
  function Delivered(workers: map<string, Worker>): set<string> {
    set n | n in workers && (workers[n] == Leaving || workers[n] == Gone)
  }

  function Members(workers: map<string, Worker>): nat {
    |At(workers, Exporting)| + |At(workers, Sending)| + |At(workers, Leaving)|
  }

  ghost predicate Inv(outs: Outcomes, net: Net) {
    && net.workers.Keys == outs.Keys
    && net.group == Members(net.workers)
    && StatusesOf(outs, Delivered(net.workers), net.received + net.buffer)
    && (net.stage != Spawning ==> forall n :: n in net.workers ==> net.workers[n] != Unstarted)
    && (net.stage.Closing? || net.stage.Draining? || net.stage.Finished? ==>
          forall n :: n in net.workers ==> net.workers[n] == Gone)
    && (net.closed <==> net.stage.Draining? || net.stage.Finished?)
    && (net.stage.Finished? ==> net.buffer == [])
  }

  lemma StartKeepsInv(outs: Outcomes)
    ensures Inv(outs, Start(outs))
  {
  }

  function Change(from: Worker, to: Worker, w: Worker): int {
    if w == to then 1 else if w == from then -1 else 0
  }

  lemma Enters(workers: map<string, Worker>, n: string, to: Worker)
    requires n in workers && workers[n] != to
    ensures |At(workers[n := to], to)| == |At(workers, to)| + 1
  {
    assert At(workers[n := to], to) == At(workers, to) + {n} && n !in At(workers, to);
  }

  lemma Leaves(workers: map<string, Worker>, n: string, to: Worker)
    requires n in workers && workers[n] != to
    ensures |At(workers[n := to], workers[n])| == |At(workers, workers[n])| - 1
  {
    var w := workers[n];
    assert At(workers, w) == At(workers[n := to], w) + {n} && n !in At(workers[n := to], w);
  }

  /** One goroutine goes on: it leaves one place and enters another. */
  lemma Moves(workers: map<string, Worker>, n: string, to: Worker, w: Worker)
    requires n in workers && workers[n] != to
    ensures |At(workers[n := to], w)| == |At(workers, w)| + Change(workers[n], to, w)
  {
    if w == to {
      Enters(workers, n, to);
    } else if w == workers[n] {
      Leaves(workers, n, to);
    } else {
      assert At(workers[n := to], w) == At(workers, w);
    }
  }

  lemma MovesAll(workers: map<string, Worker>, n: string, to: Worker)
    requires n in workers && workers[n] != to
    ensures forall w :: |At(workers[n := to], w)| == |At(workers, w)| + Change(workers[n], to, w)
  {
    forall w ensures |At(workers[n := to], w)| == |At(workers, w)| + Change(workers[n], to, w) {
      Moves(workers, n, to, w);
    }
  }

  lemma StatusAppended(outs: Outcomes, names: set<string>, statuses: seq<OutputStatus>, n: string)
    requires StatusesOf(outs, names, statuses) && n in outs && n !in names
    ensures StatusesOf(outs, names + {n}, statuses + [StatusOf(n, outs[n])])
  {
  }

  predicate Member(w: Worker) { w == Exporting || w == Sending || w == Leaving }

  lemma MembersMove(workers: map<string, Worker>, n: string, to: Worker)
    requires n in workers && workers[n] != to
    ensures Members(workers[n := to]) ==
            Members(workers) + (if Member(to) then 1 else 0) - (if Member(workers[n]) then 1 else 0)
  {
    MovesAll(workers, n, to);
  }

  lemma SpawnKeepsInv(outs: Outcomes, net: Net, n: string)
    requires Inv(outs, net) && Enabled(outs, net, Spawn(n))
    ensures Inv(outs, Next(outs, net, Spawn(n)))
  {
    MembersMove(net.workers, n, Exporting);
    assert Delivered(net.workers[n := Exporting]) == Delivered(net.workers);
  }

  lemma ExportEndKeepsInv(outs: Outcomes, net: Net, n: string)
    requires Inv(outs, net) && Enabled(outs, net, ExportEnds(n))
    ensures Inv(outs, Next(outs, net, ExportEnds(n)))
  {
    MembersMove(net.workers, n, Sending);
    assert Delivered(net.workers[n := Sending]) == Delivered(net.workers);
  }

  lemma LeaveKeepsInv(outs: Outcomes, net: Net, n: string)
    requires Inv(outs, net) && Enabled(outs, net, Leave(n))
    ensures Inv(outs, Next(outs, net, Leave(n)))
  {
    MembersMove(net.workers, n, Gone);
    assert Delivered(net.workers[n := Gone]) == Delivered(net.workers);
  }

  lemma DeliveredBySend(workers: map<string, Worker>, n: string)
    requires n in workers && workers[n] == Sending
    ensures Delivered(workers[n := Leaving]) == Delivered(workers) + {n} && n !in Delivered(workers)
  {
  }

  lemma SendDelivers(outs: Outcomes, workers: map<string, Worker>, received: seq<OutputStatus>,
                     buffer: seq<OutputStatus>, n: string)
    requires StatusesOf(outs, Delivered(workers), received + buffer)
    requires n in outs && n in workers && workers[n] == Sending
    ensures StatusesOf(outs, Delivered(workers[n := Leaving]), received + (buffer + [StatusOf(n, outs[n])]))
  {
    DeliveredBySend(workers, n);
    StatusAppended(outs, Delivered(workers), received + buffer, n);
    assert received + (buffer + [StatusOf(n, outs[n])]) == received + buffer + [StatusOf(n, outs[n])];
  }

  lemma SendKeepsInv(outs: Outcomes, net: Net, n: string)
    requires Inv(outs, net) && Enabled(outs, net, Send(n))
    ensures Inv(outs, Next(outs, net, Send(n)))
  {
    MembersMove(net.workers, n, Leaving);
    SendDelivers(outs, net.workers, net.received, net.buffer, n);
  }

  lemma MainKeepsInv(outs: Outcomes, net: Net, a: Action)
    requires Inv(outs, net) && Enabled(outs, net, a)
    requires !a.Spawn? && !a.ExportEnds? && !a.Leave? && !a.Send?
    ensures Inv(outs, Next(outs, net, a))
  {
    if a.Receive? {
      assert net.received + [net.buffer[0]] + net.buffer[1..] == net.received + net.buffer;
    } else if a.WaitReturns? {
      GroupIsNatural(outs, net);
    }
  }

  lemma StepKeepsInv(outs: Outcomes, net: Net, a: Action)
    requires Inv(outs, net) && Enabled(outs, net, a)
    ensures Inv(outs, Next(outs, net, a))
  {
    match a
    case Spawn(n) => SpawnKeepsInv(outs, net, n);
    case ExportEnds(n) => ExportEndKeepsInv(outs, net, n);
    case Send(n) => SendKeepsInv(outs, net, n);
    case Leave(n) => LeaveKeepsInv(outs, net, n);
    case _ => MainKeepsInv(outs, net, a);
  }

  // ---------------------------------------------------------------- results

  /** The wait group never goes below zero, and when it is empty no spawned goroutine is left. */
  lemma GroupIsNatural(outs: Outcomes, net: Net)
    requires Inv(outs, net)
    ensures net.group >= 0
    ensures net.group == 0 ==> forall n :: n in net.workers ==> !Member(net.workers[n])
  {
    var w := net.workers;
    if net.group == 0 {
      assert At(w, Exporting) == {} && At(w, Sending) == {} && At(w, Leaving) == {};
      forall n | n in w ensures !Member(w[n]) {
        assert n !in At(w, Exporting) && n !in At(w, Sending) && n !in At(w, Leaving);
      }
    }
  }

  lemma NoMembers(workers: map<string, Worker>)
    requires At(workers, Exporting) == At(workers, Sending) == At(workers, Leaving) == {}
    ensures Members(workers) == 0
  {
  }

  lemma {:induction false} StatusesCount(outs: Outcomes, names: set<string>, statuses: seq<OutputStatus>)
    requires StatusesOf(outs, names, statuses)
    ensures |statuses| == |names|
  {
    if statuses == [] {
      assert names == {};
    } else {
      var k := |statuses| - 1;
      var last := statuses[k];
      forall n | n in names - {last.name} ensures StatusOf(n, outs[n]) in statuses[..k] {
        var i :| 0 <= i < |statuses| && statuses[i] == StatusOf(n, outs[n]);
        assert i != k;
        assert statuses[..k][i] == statuses[i];
      }
      StatusesCount(outs, names - {last.name}, statuses[..k]);
    }
  }

  /** No goroutine ever waits for room in the channel, and none sends after it was closed. */
  lemma SendNeverBlocksOrPanics(outs: Outcomes, net: Net, n: string)
    requires Inv(outs, net) && Is(net, n, Sending)
    ensures Enabled(outs, net, Send(n)) && !net.closed
  {
    var names := Delivered(net.workers);
    StatusesCount(outs, names, net.received + net.buffer);
    SubsetSize(names + {n}, outs.Keys);
    assert |outs.Keys| == |outs|;
  }

  /** Until the exporter is finished, some goroutine can always go on. */
  lemma NeverDeadlocked(outs: Outcomes, net: Net) returns (a: Action)
    requires Inv(outs, net) && net.stage != Finished
    ensures Enabled(outs, net, a)
  {
    var w := net.workers;
    if At(w, Sending) != {} {
      var n :| n in At(w, Sending);
      SendNeverBlocksOrPanics(outs, net, n);
      a := Send(n);
    } else if At(w, Exporting) != {} {
      var n :| n in At(w, Exporting);
      a := ExportEnds(n);
    } else if At(w, Leaving) != {} {
      var n :| n in At(w, Leaving);
      a := Leave(n);
    } else if net.stage == Spawning {
      if At(w, Unstarted) != {} {
        var n :| n in At(w, Unstarted);
        a := Spawn(n);
      } else {
        forall n | n in w ensures w[n] != Unstarted { assert n !in At(w, Unstarted); }
        a := AllSpawned;
      }
    } else {
      NoMembers(w);
      a := match net.stage
           case Waiting => WaitReturns
           case Closing => Close
           case _ => if net.buffer == [] then Finish else Receive;
    }
  }

  function Rank(stage: Stage): nat {
    match stage
    case Spawning => 4
    case Waiting => 3
    case Closing => 2
    case Draining => 1
    case Finished => 0
  }

  /** How much is left to do. */
  function Remaining(net: Net): nat {
    var w := net.workers;
    5 * |At(w, Unstarted)| + 4 * |At(w, Exporting)| + 3 * |At(w, Sending)| + |At(w, Leaving)|
    + |net.buffer| + Rank(net.stage)
  }

  /** Every step brings the export closer to its end, whichever goroutine takes it. */
  lemma EveryStepCounts(outs: Outcomes, net: Net, a: Action)
    requires Enabled(outs, net, a)
    ensures Remaining(Next(outs, net, a)) < Remaining(net)
  {
    if a.Spawn? || a.ExportEnds? || a.Send? || a.Leave? {
      MovesAll(net.workers, a.name, Next(outs, net, a).workers[a.name]);
    }
  }

  /** One status for each output: completed with the details of its export, or failed with its
      error. */
  ghost predicate TellsOutcomes(outs: Outcomes, statuses: seq<OutputStatus>) {
    && (forall i, j :: 0 <= i < j < |statuses| ==> statuses[i].name != statuses[j].name)
    && (forall n :: n in outs <==> exists s :: s in statuses && s.name == n)
    && (forall s :: s in statuses && s.name in outs ==>
          match outs[s.name]
          case Exported(details) => s.phase == OutputCompleted && s.details == details
          case ExportFailed(error) => s.phase == OutputFailed && s.details == error)
  }

  lemma StatusesTell(outs: Outcomes, statuses: seq<OutputStatus>)
    requires StatusesOf(outs, outs.Keys, statuses)
    ensures TellsOutcomes(outs, statuses)
  {
    forall n | n in outs ensures exists s :: s in statuses && s.name == n {
      assert StatusOf(n, outs[n]) in statuses;
    }
  }

  lemma FinishedDelivers(outs: Outcomes, net: Net)
    requires Inv(outs, net) && net.stage == Finished
    ensures StatusesOf(outs, outs.Keys, net.received)
  {
    assert net.received + net.buffer == net.received;
    assert Delivered(net.workers) == outs.Keys;
  }

  /** What the exporter has received in the end. */
  lemma FinishedHasAllStatuses(outs: Outcomes, net: Net)
    requires Inv(outs, net) && net.stage == Finished
    ensures StatusesOf(outs, outs.Keys, net.received) && TellsOutcomes(outs, net.received)
  {
    FinishedDelivers(outs, net);
    StatusesTell(outs, net.received);
  }

  lemma RemoveOne(statuses: seq<OutputStatus>, i: nat)
    requires i < |statuses|
    ensures multiset(statuses) == multiset(statuses[..i] + statuses[i + 1..]) + multiset{statuses[i]}
  {
    assert statuses == statuses[..i] + [statuses[i]] + statuses[i + 1..];
  }

  lemma DistinctStatuses(outs: Outcomes, names: set<string>, statuses: seq<OutputStatus>, s: OutputStatus)
    requires StatusesOf(outs, names, statuses)
    ensures multiset(statuses)[s] == if s.name in names && s == StatusOf(s.name, outs[s.name]) then 1 else 0
  {
    if s in statuses {
      var i :| 0 <= i < |statuses| && statuses[i] == s;
      RemoveOne(statuses, i);
      assert s !in statuses[..i] && s !in statuses[i + 1..];
    } else {
      assert multiset(statuses)[s] == 0;
    }
  }

  // ---------------------------------------------------------------- schedules

  /** An execution: the goroutines take their steps in some order that their guards allow. */
  ghost predicate Execution(outs: Outcomes, nets: seq<Net>, actions: seq<Action>) {
    && |nets| == |actions| + 1 && nets[0] == Start(outs)
    && forall i :: 0 <= i < |actions| ==>
         Enabled(outs, nets[i], actions[i]) && nets[i + 1] == Next(outs, nets[i], actions[i])
  }

  lemma {:induction false} ExecutionKeepsInv(outs: Outcomes, nets: seq<Net>, actions: seq<Action>, i: nat)
    requires Execution(outs, nets, actions) && i < |nets|
    ensures Inv(outs, nets[i]) && i + Remaining(nets[i]) <= Remaining(Start(outs))
  {
    if i == 0 {
      StartKeepsInv(outs);
    } else {
      ExecutionKeepsInv(outs, nets, actions, i - 1);
      StepKeepsInv(outs, nets[i - 1], actions[i - 1]);
      EveryStepCounts(outs, nets[i - 1], actions[i - 1]);
    }
  }

  /** At every point of every execution: the wait group is not negative, a goroutine that wants to
      send can do so and the channel is still open, and unless the exporter is finished some
      goroutine can go on. */
  lemma ExecutionsAreSafe(outs: Outcomes, nets: seq<Net>, actions: seq<Action>, i: nat)
    requires Execution(outs, nets, actions) && i < |nets|
    ensures nets[i].group >= 0
    ensures forall n :: Is(nets[i], n, Sending) ==> Enabled(outs, nets[i], Send(n)) && !nets[i].closed
    ensures nets[i].stage != Finished ==> exists a :: Enabled(outs, nets[i], a)
  {
    ExecutionKeepsInv(outs, nets, actions, i);
    GroupIsNatural(outs, nets[i]);
    forall n | Is(nets[i], n, Sending) ensures Enabled(outs, nets[i], Send(n)) && !nets[i].closed {
      SendNeverBlocksOrPanics(outs, nets[i], n);
    }
    if nets[i].stage != Finished { var a := NeverDeadlocked(outs, nets[i]); }
  }

  /** No execution is longer than five steps for each output and four more. */
  lemma ExecutionsTerminate(outs: Outcomes, nets: seq<Net>, actions: seq<Action>)
    requires Execution(outs, nets, actions)
    ensures |actions| <= 5 * |outs| + 4
  {
    ExecutionKeepsInv(outs, nets, actions, |actions|);
    var w := Start(outs).workers;
    assert At(w, Unstarted) == outs.Keys && |outs.Keys| == |outs|;
    assert At(w, Exporting) == {} && At(w, Sending) == {} && At(w, Leaving) == {};
  }

  /** Any two finished executions deliver the same statuses, up to their order. */
  lemma SchedulesAgree(outs: Outcomes, nets1: seq<Net>, actions1: seq<Action>, nets2: seq<Net>, actions2: seq<Action>)
    requires Execution(outs, nets1, actions1) && nets1[|actions1|].stage == Finished
    requires Execution(outs, nets2, actions2) && nets2[|actions2|].stage == Finished
    ensures multiset(nets1[|actions1|].received) == multiset(nets2[|actions2|].received)
  {
    var net1, net2 := nets1[|actions1|], nets2[|actions2|];
    ExecutionKeepsInv(outs, nets1, actions1, |actions1|);
    ExecutionKeepsInv(outs, nets2, actions2, |actions2|);
    FinishedDelivers(outs, net1);
    FinishedDelivers(outs, net2);
    forall s ensures multiset(net1.received)[s] == multiset(net2.received)[s] {
      DistinctStatuses(outs, outs.Keys, net1.received, s);
      DistinctStatuses(outs, outs.Keys, net2.received, s);
    }
  }

  /** Takes the steps of the goroutines in any order that their guards allow; one of the guards
      always holds. */
  method ExportAll(outs: Outcomes) returns (statuses: seq<OutputStatus>)
    ensures StatusesOf(outs, outs.Keys, statuses) && TellsOutcomes(outs, statuses)
  {
    var net := Start(outs);
    StartKeepsInv(outs);
    while net.stage != Finished
      invariant Inv(outs, net)
      decreases Remaining(net)
    {
      var a := AnyEnabled(outs, net);
      StepKeepsInv(outs, net, a);
      EveryStepCounts(outs, net, a);
      net := Next(outs, net, a);
    }
    FinishedHasAllStatuses(outs, net);
    statuses := net.received;
  }

  /** Some action that is enabled, chosen freely. */
  method AnyEnabled(outs: Outcomes, net: Net) returns (a: Action)
    requires Inv(outs, net) && net.stage != Finished
    ensures Enabled(outs, net, a)
  {
    ghost var possible := NeverDeadlocked(outs, net);
    if
    case net.stage == Spawning && exists n :: n in net.workers && net.workers[n] == Unstarted =>
      var n :| n in net.workers && net.workers[n] == Unstarted;
      a := Spawn(n);
    case net.stage == Spawning && forall n :: n in net.workers ==> net.workers[n] != Unstarted => a := AllSpawned;
    case exists n :: n in net.workers && net.workers[n] == Exporting =>
      var n :| n in net.workers && net.workers[n] == Exporting;
      a := ExportEnds(n);
    case exists n :: n in net.workers && net.workers[n] == Sending =>
      var n :| n in net.workers && net.workers[n] == Sending;
      SendNeverBlocksOrPanics(outs, net, n);
      a := Send(n);
    case exists n :: n in net.workers && net.workers[n] == Leaving =>
      var n :| n in net.workers && net.workers[n] == Leaving;
      a := Leave(n);
    case net.stage == Waiting && net.group == 0 => a := WaitReturns;
    case net.stage == Closing => a := Close;
    case net.stage == Draining && net.buffer != [] => a := Receive;
    case net.stage == Draining && net.buffer == [] => a := Finish;
  }
}
