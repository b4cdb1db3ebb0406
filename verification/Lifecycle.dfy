/** Who starts, stops and reaps the processes of one case (process.go, benchmark.go, iperf.go). */
module Lifecycle {
  /** What Signal or Kill reports. */
  datatype Signal = Delivered | ProcessDone | Refused

  /** What Wait reports. */
  datatype Exit = Clean | Terminated | CodeOne | Other

  /**
   * What the supervisor of a process observes: whether its context ended before the process did, whether the result
   * was there all the same, how the signal went, whether the process stopped in time, how the kill went, and the exit.
   */
  datatype Story = Story(interrupted: bool, exited: bool, signal: Signal, inTime: bool, kill: Signal, exit: Exit)

  /** The supervisor had to stop the process. */
  predicate Stopped(story: Story) { story.interrupted && !story.exited }

  /** A process that was not yet gone had to be killed, because it could not be signaled or did not stop in time. */
  predicate Forced(story: Story) {
    Stopped(story) && (story.signal == Refused || !story.inTime) && story.kill != ProcessDone
  }

  class Process {
    /** Stopping means killing, which makes exit code 1 an expected one. */
    const terminates: bool
    /** Being terminated by the signal is an expected exit; so it is everywhere but on Windows. */
    const unix: bool
    var running: bool
    var canceled: bool
    var waits: nat
    var closes: nat
    var failed: bool
    var stopFailed: bool

    constructor (terminates: bool, unix: bool)
      ensures this.terminates == terminates && this.unix == unix
      ensures running && !canceled && waits == closes == 0 && !failed && !stopFailed
    {
      this.terminates, this.unix := terminates, unix;
      running, canceled, waits, closes, failed, stopFailed := true, false, 0, 0, false, false;
    }

    /** The result of the process was collected, once. */
    ghost predicate Reaped()
      reads this
    {
      !running && waits == 1
    }

    /** The process is in the hands of its supervisor, which closes `done` once it has reaped the process. */
    ghost predicate Supervised()
      reads this
    {
      waits == closes <= 1 && (closes == 1 ==> Reaped())
    }

    predicate Done()
      reads this
    {
      closes > 0
    }

    predicate Expected(exit: Exit) { exit == Clean || (unix && exit == Terminated) }

    /** Collects the result. Doing so twice would be an error. */
    method Wait()
      requires waits == 0
      modifies this`running, this`waits
      ensures Reaped()
    {
      running, waits := false, 1;
    }

    method Close()
      requires closes == 0
      modifies this`closes
      ensures closes == 1
    {
      closes := 1;
    }

    /**
     * The supervising goroutine. It reaps the process and closes `done`, both exactly once, and reports a failed stop
     * exactly when it had to stop the process and this took force or ended in an unexpected exit. A process that was
     * stopped has failed only if the stop has; any other one has failed unless its exit was clean.
     */
    method Supervise(story: Story)
      requires Supervised() && !Done()
      modifies this
      ensures Supervised() && Done()
      ensures !Stopped(story) ==> !stopFailed
      ensures Stopped(story) ==>
        (stopFailed <==>
           Forced(story)
           || match story.exit
              case Clean => false
              case Terminated => !unix
              case CodeOne => !(terminates && story.signal == Delivered)
              case Other => true)
      ensures failed <==> if Stopped(story) then stopFailed else story.exit != Clean
    {
      var waitFailed: bool;
      stopFailed := false;
      if !story.interrupted {
        Wait();
        waitFailed := story.exit != Clean;
      } else if story.exited {
        Wait();
        waitFailed := story.exit != Clean;
      } else {
        var terminated := terminates && story.signal == Delivered;
        var reason := false;
        if story.signal == Refused {
          reason := true;
        } else if story.inTime {
          Wait();
        } else {
          reason := true;
        }
        if reason {
          if story.kill != ProcessDone {
            stopFailed := true;
          }
          Wait();
        }
        waitFailed := !(Expected(story.exit) || (terminated && story.exit == CodeOne));
        stopFailed := stopFailed || waitFailed;
      }
      failed := waitFailed || stopFailed;
      canceled := true;
      Close();
    }

    /** Receives from `done`: if it is not closed, the supervisor has yet to come to its end. */
    method Await()
      requires Supervised()
      modifies this
      ensures Supervised() && Done()
      ensures old(Done()) ==> unchanged(this)
    {
      if !Done() {
        var story: Story := *;
        Supervise(story);
      }
    }

    method Cancel()
      modifies this`canceled
      ensures canceled
    {
      canceled := true;
    }

    method Stop() returns (error: bool)
      requires Supervised()
      modifies this
      ensures Supervised() && Done() && canceled && error == stopFailed
      ensures old(Done()) ==> stopFailed == old(stopFailed)
    {
      Cancel();
      Await();
      canceled := true;
      error := stopFailed;
    }

    /** Fails exactly for a process that has ended, in whatever way, or whose output shows a panic. */
    method Check(panicked: bool) returns (error: bool)
      requires Supervised()
      ensures error <==> Done() || panicked
    {
      if Done() {
        error := true;
      } else {
        error := panicked;
      }
    }
  }

  // ----- A benchmark

  /** What Close does to the outside. */
  datatype Effect =
    | Canceled(process: Process)
    | StoppedProcess(process: Process)
    | LoadClosed
    | RouteDeleted(index: nat)
    | InterfaceAwaited
    | DirectoryRemoved

  function Cancels(tunnels: seq<Process>): seq<Effect> {
    seq(|tunnels|, i requires 0 <= i < |tunnels| => Canceled(tunnels[i]))
  }

  function Stops(processes: seq<Process?>): seq<Effect> {
    if processes == [] then []
    else
      var front, last := Stops(processes[..|processes| - 1]), processes[|processes| - 1];
      if last == null then front else front + [StoppedProcess(last)]
  }

  /** The effect, if there is something to do for it. */
  function When(due: bool, effect: Effect): seq<Effect> { if due then [effect] else [] }

  function Releases(tunnels: seq<Process>, load: bool, route: nat, directory: bool): seq<Effect> {
    When(load, LoadClosed) + When(route != 0, RouteDeleted(route))
    + When(tunnels != [], InterfaceAwaited) + When(directory, DirectoryRemoved)
  }

  /**
   * Everything that Close does, in its order: no route, interface or directory goes before the processes have ended.
   */
  function Cleanup(tunnels: seq<Process>, relay: Process?, server: Process?, load: bool, route: nat, directory: bool)
    : seq<Effect>
  {
    Cancels(tunnels) + Stops(tunnels + [relay, server]) + Releases(tunnels, load, route, directory)
  }

  lemma NothingToClean()
    ensures Cleanup([], null, null, false, 0, false) == []
  {
    assert Cancels([]) == [];
    assert Stops([] + [null, null]) == Stops([null]);
  }

  lemma {:induction false} StopsExactly(processes: seq<Process?>)
    ensures forall k :: 0 <= k < |Stops(processes)| ==> Stops(processes)[k].StoppedProcess?
    ensures forall p: Process :: StoppedProcess(p) in Stops(processes) <==> p in processes
  {
    if processes != [] {
      StopsExactly(processes[..|processes| - 1]);
      assert processes == processes[..|processes| - 1] + [processes[|processes| - 1]];
    }
  }

  lemma NoStops(processes: seq<Process?>)
    ensures Stops(processes[..0]) == []
  {
  }

  lemma StopsNext(processes: seq<Process?>, i: nat)
    requires i < |processes|
    ensures Stops(processes[..i + 1])
         == Stops(processes[..i]) + if processes[i] == null then [] else [StoppedProcess(processes[i])]
  {
    assert processes[..i + 1][..i] == processes[..i];
  }

  predicate Releasing(effect: Effect) { !effect.Canceled? && !effect.StoppedProcess? }

  /**
   * Every process is stopped, no other one is, and that before the load is closed and the route and the directory are
   * removed; the tunnels are all told to stop before the first one is waited for.
   */
  lemma CleanupInOrder(tunnels: seq<Process>, relay: Process?, server: Process?, load: bool, route: nat,
                       directory: bool)
    ensures
      var effects := Cleanup(tunnels, relay, server, load, route, directory);
      && (forall p: Process :: StoppedProcess(p) in effects <==> p in tunnels || p == relay || p == server)
      && (forall a, b :: 0 <= a < |effects| && 0 <= b < |effects| && effects[a].StoppedProcess? && Releasing(effects[b]) ==> a < b)
      && (forall a, b :: 0 <= a < |effects| && 0 <= b < |effects| && effects[a].Canceled? && !effects[b].Canceled? ==> a < b)
  {
    var all: seq<Process?> := tunnels + [relay, server];
    var cancels, stops, releases := Cancels(tunnels), Stops(all), Releases(tunnels, load, route, directory);
    StopsExactly(all);
    assert forall k :: 0 <= k < |releases| ==> Releasing(releases[k]);
    assert Cleanup(tunnels, relay, server, load, route, directory) == cancels + stops + releases;
  }

  function Turn(effect: Effect): nat {
    match effect
    case Canceled(_) => 0
    case StoppedProcess(_) => 1
    case LoadClosed => 2
    case RouteDeleted(_) => 3
    case InterfaceAwaited => 4
    case DirectoryRemoved => 5
  }

  ghost predicate Between(effects: seq<Effect>, low: nat, high: nat) {
    forall k :: 0 <= k < |effects| ==> low <= Turn(effects[k]) < high
  }

  /** Every effect is after the ones before it, except that several processes may be canceled, and several stopped. */
  ghost predicate InTurn(effects: seq<Effect>) {
    forall a, b :: 0 <= a < b < |effects| ==>
      Turn(effects[a]) < Turn(effects[b]) || Turn(effects[a]) == Turn(effects[b]) <= 1
  }

  lemma Joined(x: seq<Effect>, y: seq<Effect>, low: nat, middle: nat, high: nat)
    requires InTurn(x) && InTurn(y) && Between(x, low, middle) && Between(y, middle, high) && low <= middle <= high
    ensures InTurn(x + y) && Between(x + y, low, high)
    ensures forall e :: e in x + y <==> e in x || e in y
  {
    hide Turn;
  }

  lemma WhenExactly(due: bool, effect: Effect)
    ensures forall e :: e in When(due, effect) <==> due && e == effect
    ensures InTurn(When(due, effect)) && Between(When(due, effect), Turn(effect), Turn(effect) + 1)
  {
  }

  lemma ReleasesExactly(tunnels: seq<Process>, load: bool, route: nat, directory: bool)
    ensures
      var effects := Releases(tunnels, load, route, directory);
      && InTurn(effects) && Between(effects, 2, 6)
      && forall e :: e in effects <==>
           || (load && e == LoadClosed) || (route != 0 && e == RouteDeleted(route))
           || (tunnels != [] && e == InterfaceAwaited) || (directory && e == DirectoryRemoved)
  {
    hide When, InTurn, Between;
    var a, b := When(load, LoadClosed), When(route != 0, RouteDeleted(route));
    var c, d := When(tunnels != [], InterfaceAwaited), When(directory, DirectoryRemoved);
    WhenExactly(load, LoadClosed);
    WhenExactly(route != 0, RouteDeleted(route));
    WhenExactly(tunnels != [], InterfaceAwaited);
    WhenExactly(directory, DirectoryRemoved);
    Joined(a, b, 2, 3, 4);
    Joined(a + b, c, 2, 4, 5);
    Joined(a + b + c, d, 2, 5, 6);
  }

  lemma CancelsExactly(tunnels: seq<Process>)
    ensures InTurn(Cancels(tunnels)) && Between(Cancels(tunnels), 0, 1)
    ensures forall e :: e in Cancels(tunnels) <==> e.Canceled? && e.process in tunnels
  {
    forall p: Process | p in tunnels
      ensures Canceled(p) in Cancels(tunnels)
    {
      var k :| 0 <= k < |tunnels| && tunnels[k] == p;
      assert Cancels(tunnels)[k] == Canceled(p);
    }
  }

  lemma StopsInTurn(processes: seq<Process?>)
    ensures InTurn(Stops(processes)) && Between(Stops(processes), 1, 2)
    ensures forall e :: e in Stops(processes) <==> e.StoppedProcess? && e.process in processes
  {
    StopsExactly(processes);
  }

  /** The effect has something to do. */
  predicate Due(tunnels: seq<Process>, relay: Process?, server: Process?, load: bool, route: nat, directory: bool,
                effect: Effect)
  {
    match effect
    case Canceled(p) => p in tunnels
    case StoppedProcess(p) => p in tunnels || p == relay || p == server
    case LoadClosed => load
    case RouteDeleted(index) => index == route != 0
    case InterfaceAwaited => tunnels != []
    case DirectoryRemoved => directory
  }

  lemma CleanupMembers(tunnels: seq<Process>, relay: Process?, server: Process?, load: bool, route: nat,
                       directory: bool)
    ensures
      var effects := Cleanup(tunnels, relay, server, load, route, directory);
      && InTurn(effects)
      && forall e :: e in effects <==> Due(tunnels, relay, server, load, route, directory, e)
  {
    var all: seq<Process?> := tunnels + [relay, server];
    var cancels, stops, releases := Cancels(tunnels), Stops(all), Releases(tunnels, load, route, directory);
    assert Cleanup(tunnels, relay, server, load, route, directory) == cancels + stops + releases;
    hide Cancels, Stops, Releases, InTurn, Between, Cleanup;
    CancelsExactly(tunnels);
    StopsInTurn(all);
    ReleasesExactly(tunnels, load, route, directory);
    Joined(cancels, stops, 0, 1, 2);
    Joined(cancels + stops, releases, 0, 2, 6);
  }

  /**
   * Every effect occurs exactly when there is something to do for it: each tunnel is canceled and stopped, in their order,
   * and then everything else that is held is let go, once, in a fixed order.
   */
  lemma CleanupExactly(tunnels: seq<Process>, relay: Process?, server: Process?, load: bool, route: nat,
                       directory: bool)
    ensures
      var effects := Cleanup(tunnels, relay, server, load, route, directory);
      var n := |tunnels|;
      && InTurn(effects)
      && (forall e :: e in effects <==> Due(tunnels, relay, server, load, route, directory, e))
      && 2 * n <= |effects|
      && (forall k :: 0 <= k < n ==> effects[k] == Canceled(tunnels[k]) && effects[n + k] == StoppedProcess(tunnels[k]))
  {
    hide InTurn, Due, Cancels, Stops, Releases;
    CleanupMembers(tunnels, relay, server, load, route, directory);
    var all: seq<Process?> := tunnels + [relay, server];
    CleanupParts(tunnels, all, Cancels(tunnels), Stops(all));
  }

  lemma CleanupParts(tunnels: seq<Process>, all: seq<Process?>, cancels: seq<Effect>, stops: seq<Effect>)
    requires |all| >= |tunnels| && forall k :: 0 <= k < |tunnels| ==> all[k] == tunnels[k]
    requires cancels == Cancels(tunnels) && stops == Stops(all)
    ensures |cancels| == |tunnels| <= |stops|
    ensures forall k :: 0 <= k < |tunnels| ==>
      cancels[k] == Canceled(tunnels[k]) && stops[k] == StoppedProcess(tunnels[k])
  {
    StopsPrefix(all, |tunnels|);
  }

  /** The stops begin with the first processes, as long as there are any. */
  lemma {:induction false} StopsPrefix(processes: seq<Process?>, n: nat)
    requires n <= |processes| && forall k :: 0 <= k < n ==> processes[k] != null
    ensures |Stops(processes)| >= n
    ensures forall k :: 0 <= k < n ==> processes[k] != null && Stops(processes)[k] == StoppedProcess(processes[k])
  {
    if processes != [] {
      var last := |processes| - 1;
      StopsPrefix(processes[..last], if n <= last then n else last);
      StopsCount(processes[..last]);
    }
  }

  lemma {:induction false} StopsCount(processes: seq<Process?>)
    ensures |Stops(processes)| <= |processes|
  {
    if processes != [] {
      StopsCount(processes[..|processes| - 1]);
    }
  }

  /** What a benchmark takes from its surroundings besides processes. */
  datatype Taken = Taken(load: bool, route: nat, directory: bool)

  const NOTHING := Taken(false, 0, false)

  class Benchmark {
    const unix: bool
    const memory: bool
    /** How many tunnel processes the implementation needs, and whether it needs a relay. */
    const count: nat
    const relayed: bool
    var server: Process?
    var tunnels: seq<Process>
    var relay: Process?
    var load: bool
    var routeIndex: nat
    var directory: bool
    var cleanupFailed: bool
    /** Every process that was ever started. */
    ghost var started: set<Process>
    ghost var effects: seq<Effect>
    /** What was taken from the surroundings and not yet given back. */
    ghost var taken: Taken
    /** Something outside has failed. */
    ghost var faulted: bool
    /** A tunnel process or the relay had already ended when the cleanup began. */
    ghost var endedEarly: bool
    /** The stop of some process has failed. */
    ghost var stopFailed: bool

    ghost function Held(): set<Process>
      reads this
    {
      (set p | p in tunnels) + (if server == null then {} else {server}) + (if relay == null then {} else {relay})
    }

    /** Every process that was started is held and supervised, or in `others`, or has been reaped. */
    ghost predicate Accounted(others: set<Process>)
      reads this, started
    {
      && Held() <= started
      && (forall p :: p in started ==> p.Reaped() || p in Held() || p in others)
      && (forall p :: p in Held() ==> p.Supervised())
    }

    /** The fields say exactly what was taken. */
    ghost predicate Remembered()
      reads this
    {
      taken == Taken(load, routeIndex, directory)
    }

    /** Nothing is left to clean up. */
    ghost predicate Closed()
      reads this
    {
      tunnels == [] && relay == null && server == null && !load && routeIndex == 0 && !directory
    }

    constructor (unix: bool, memory: bool, count: nat, relayed: bool)
      ensures Closed() && started == {} && effects == [] && taken == NOTHING && !faulted && Accounted({}) && Remembered()
    {
      this.unix, this.memory, this.count, this.relayed := unix, memory, count, relayed;
      server, tunnels, relay, load, routeIndex, directory, cleanupFailed := null, [], null, false, 0, false, false;
      started, effects, taken, faulted, endedEarly, stopFailed := {}, [], NOTHING, false, false, false;
    }

    /** Something outside is asked for, and may fail. */
    method Ask() returns (fails: bool)
      modifies this`faulted
      ensures faulted == (old(faulted) || fails)
    {
      fails := *;
      faulted := faulted || fails;
    }

    /** Time passes: any process that is held may come to its end. */
    method Elapse(ghost others: set<Process>)
      requires Accounted(others)
      modifies Held()
      ensures Accounted(others)
      ensures forall p :: p in Held() && old(p.Done()) ==> p.Done()
    {
      for i := 0 to |tunnels|
        invariant Accounted(others)
        invariant forall p :: p in Held() && old(p.Done()) ==> p.Done()
      {
        if * {
          tunnels[i].Await();
        }
      }
      if server != null {
        if * {
          server.Await();
        }
      }
      if relay != null {
        if * {
          relay.Await();
        }
      }
    }

    /** What starting does to the set of processes: the new ones are fresh, and there are `more` of them. */
    twostate predicate Starts(more: nat)
      reads this
    {
      fresh(started - old(started)) && old(started) <= started && |started| == old(|started|) + more
    }

    /** What it does in any case, also when it fails on the way. */
    twostate predicate OnlyStarts()
      reads this
    {
      fresh(started - old(started)) && old(started) <= started
    }

    /** `startProcess`: null is an error, after which nothing is left running. */
    method StartProcess(terminates: bool) returns (child: Process?)
      requires Accounted({})
      modifies this`started, this`faulted
      ensures OnlyStarts() && faulted == (old(faulted) || child == null)
      ensures child == null ==> Accounted({})
      ensures child != null ==>
        fresh(child) && child in started && child.Supervised() && Accounted({child}) && Starts(1)
    {
      var fails := Ask();
      if fails {
        return null;
      }
      child := new Process(terminates, unix);
      started := started + {child};
      fails := Ask();
      if fails {
        child.Wait();
        child := null;
      }
    }

    /** The one-off server. A server that is replaced must be gone. */
    method StartServer() returns (error: bool)
      requires Accounted({})
      requires server == null || server.Done()
      modifies this`server, this`started, this`faulted, started
      ensures Accounted({}) && OnlyStarts() && faulted == (old(faulted) || error)
      ensures !error ==> server != null && fresh(server) && Starts(1)
    {
      ghost var before := server;
      server := StartProcess(!unix);
      assert before != null ==> before.Reaped();
      if server == null {
        return true;
      }
      Elapse({});
      error := Ask();
    }

    method StartRelay() returns (error: bool)
      requires Accounted({}) && relay == null
      modifies this`relay, this`started, this`faulted, started
      ensures Accounted({}) && OnlyStarts() && faulted == (old(faulted) || error)
      ensures !error ==> relay != null && Starts(1)
    {
      error := Ask();
      if error {
        return;
      }
      relay := StartProcess(false);
      if relay == null {
        return true;
      }
      Elapse({});
      error := Ask();
    }

    function Helpers(): nat { if relayed then 1 else 0 }

    /** Starts the relay, if the implementation needs one, and then as many tunnel processes as it needs. */
    method StartSubject() returns (error: bool)
      requires Accounted({}) && relay == null && tunnels == []
      modifies this`relay, this`tunnels, this`started, this`faulted, started
      ensures Accounted({}) && OnlyStarts() && faulted == (old(faulted) || error)
      ensures !error ==> |tunnels| == count && (relay != null <==> relayed) && Starts(Helpers() + count)
    {
      if relayed {
        error := StartRelay();
        if error {
          return;
        }
      }
      error := Ask();
      if error {
        return;
      }
      error := StartTunnels();
    }

    method StartTunnels() returns (error: bool)
      requires Accounted({}) && tunnels == []
      modifies this`tunnels, this`started, this`faulted
      ensures Accounted({}) && OnlyStarts() && faulted == (old(faulted) || error)
      ensures !error ==> |tunnels| == count && Starts(count)
    {
      for n := 0 to count
        invariant Accounted({}) && Starts(n) && faulted == old(faulted) && |tunnels| == n
      {
        var tunnel := StartProcess(false);
        if tunnel == null {
          return true;
        }
        tunnels := tunnels + [tunnel];
      }
      error := false;
    }

    /** A route that was added is remembered, so that Close can delete it. */
    method AddRoute() returns (error: bool)
      requires Remembered() && routeIndex == 0
      modifies this`routeIndex, this`taken, this`faulted
      ensures Remembered() && faulted == (old(faulted) || error)
      ensures error <==> routeIndex == 0
    {
      var found: int := *;
      var index: nat := if found > 0 then found else 1;
      error := Ask();
      if !error {
        taken := taken.(route := index);
        routeIndex := index;
      }
    }

    method StartTunnel() returns (error: bool)
      requires Accounted({}) && Remembered() && relay == null && tunnels == [] && routeIndex == 0
      modifies this`relay, this`tunnels, this`routeIndex, this`started, this`taken, this`faulted, started
      ensures Accounted({}) && Remembered() && OnlyStarts() && faulted == (old(faulted) || error)
      ensures !error ==> |tunnels| == count && routeIndex != 0 && Starts(Helpers() + count)
    {
      error := Ask();
      if error {
        return;
      }
      error := StartSubject();
      if error {
        return;
      }
      Elapse({});
      error := Ask();
      if error {
        return;
      }
      error := AddRoute();
      if error || memory {
        return;
      }
      Elapse({});
      error := Ask();
    }

    /** The client is gone in every case; it succeeds exactly if nothing failed and the one-off server ended well. */
    method RunClient() returns (error: bool)
      requires Accounted({}) && server != null
      modifies this`started, this`faulted, started
      ensures Accounted({}) && OnlyStarts() && faulted == (old(faulted) || error)
      ensures !error ==> server.Done() && !server.failed && Starts(1)
    {
      var client := StartProcess(!unix);
      if client == null {
        return true;
      }
      client.Await();
      Elapse({client});
      error := Ask();
      if !error {
        error := AwaitServer(client);
      }
      var _ := client.Stop();
    }

    /** Waits for the one-off server, unless the time is over. */
    method AwaitServer(ghost client: Process) returns (error: bool)
      requires server != null && Accounted({client}) && client !in Held()
      modifies server, this`faulted
      ensures Accounted({client}) && faulted == (old(faulted) || error)
      ensures !error ==> server.Done() && !server.failed
    {
      error := Ask();
      if !error {
        server.Await();
        error := server.failed;
        faulted := faulted || error;
      }
    }

    /** A throughput case up to the end of its warmup. */
    method WarmUp() returns (error: bool)
      requires Accounted({}) && Remembered() && tunnels == [] && relay == null && server == null && routeIndex == 0
      modifies this`server, this`relay, this`tunnels, this`routeIndex, this`started, this`taken, this`faulted, started
      ensures Accounted({}) && Remembered() && OnlyStarts() && faulted == (old(faulted) || error)
      ensures !error ==> server != null && server.Done() && |tunnels| == count && Starts(Helpers() + count + 2)
    {
      error := Ask();
      if error {
        return;
      }
      error := StartServer();
      if error {
        return;
      }
      error := StartTunnel();
      if error {
        return;
      }
      error := RunClient();
    }

    /** The measurement, with a second server and a second client. */
    method Measure() returns (error: bool)
      requires Accounted({}) && server != null && server.Done()
      modifies this`server, this`started, this`faulted, started
      ensures Accounted({}) && OnlyStarts() && faulted == (old(faulted) || error)
      ensures !error ==> server != null && server.Done() && Starts(2)
    {
      error := Ask();
      if error {
        return;
      }
      error := StartServer();
      if error {
        return;
      }
      error := Ask();
      if error {
        return;
      }
      error := RunClient();
      if error {
        return;
      }
      error := Ask();
    }

    /** A throughput case starts its server and its client twice, and its tunnels and its relay once. */
    method RunThroughput() returns (error: bool)
      requires Accounted({}) && Remembered() && tunnels == [] && relay == null && server == null && routeIndex == 0
      modifies this`server, this`relay, this`tunnels, this`routeIndex, this`started, this`taken, this`faulted, started
      ensures Accounted({}) && Remembered() && OnlyStarts() && faulted == (old(faulted) || error)
      ensures !error ==> server != null && server.Done() && |tunnels| == count && Starts(Helpers() + count + 4)
    {
      error := WarmUp();
      if error {
        return;
      }
      error := Measure();
    }

    method RunMemory() returns (error: bool)
      requires Accounted({}) && Remembered() && tunnels == [] && relay == null && routeIndex == 0 && !load
      modifies this`load, this`relay, this`tunnels, this`routeIndex, this`started, this`taken, this`faulted, started
      ensures Accounted({}) && Remembered() && OnlyStarts() && faulted == (old(faulted) || error)
      ensures !error ==> load && |tunnels| == count && Starts(Helpers() + count)
    {
      error := Ask();
      if error {
        return;
      }
      load, taken := true, taken.(load := true);
      error := StartTunnel();
      if error {
        return;
      }
      Elapse({});
      error := Ask();
    }

    /** The processes in the order in which Close stops them. */
    function Processes(): (processes: seq<Process?>)
      reads this
      ensures forall p :: p in Held() ==> p in processes
      ensures forall k :: 0 <= k < |processes| && processes[k] != null ==> processes[k] in Held()
    {
      tunnels + [relay, server]
    }

    method CancelTunnels()
      requires Accounted({})
      modifies set p | p in tunnels, this`effects
      ensures Accounted({}) && effects == old(effects) + Cancels(tunnels)
      ensures forall p :: p in tunnels ==> p.canceled
      ensures forall p :: p in Held() && old(p.Reaped()) ==> p.Reaped()
    {
      for i := 0 to |tunnels|
        invariant Accounted({}) && effects == old(effects) + Cancels(tunnels[..i])
        invariant forall k :: 0 <= k < i ==> tunnels[k].canceled
        invariant forall p :: p in Held() && old(p.Reaped()) ==> p.Reaped()
      {
        tunnels[i].Cancel();
        effects := effects + [Canceled(tunnels[i])];
        assert Cancels(tunnels[..i + 1]) == Cancels(tunnels[..i]) + [Canceled(tunnels[i])];
      }
      assert tunnels[..|tunnels|] == tunnels;
    }

    method StopProcesses() returns (error: bool)
      requires Accounted({})
      modifies Held(), this`effects
      ensures Accounted({}) && effects == old(effects) + Stops(Processes())
      ensures forall p :: p in started ==> p.Reaped()
      ensures error <==> exists p :: p in Held() && p.stopFailed
    {
      hide Stops;
      error := false;
      var processes := Processes();
      NoStops(processes);
      for i := 0 to |processes|
        invariant Accounted({}) && effects == old(effects) + Stops(processes[..i])
        invariant forall k :: 0 <= k < i && processes[k] != null ==> processes[k].Done()
        invariant error <==> exists k :: 0 <= k < i && processes[k] != null && processes[k].stopFailed
      {
        var child := processes[i];
        StopsNext(processes, i);
        if child != null {
          assert child in Held();
          var failed := child.Stop();
          error := error || failed;
          effects := effects + [StoppedProcess(child)];
        }
      }
      assert processes[..|processes|] == processes;
    }

    method CloseLoad()
      requires taken.load == load
      modifies this`load, this`effects, this`taken
      ensures !load && taken == old(taken).(load := false) && effects == old(effects) + When(old(load), LoadClosed)
    {
      if load {
        effects := effects + [LoadClosed];
        load, taken := false, taken.(load := false);
      }
    }

    method DeleteRoute() returns (error: bool)
      requires taken.route == routeIndex
      modifies this`routeIndex, this`effects, this`taken, this`faulted
      ensures routeIndex == 0 && taken == old(taken).(route := 0) && faulted == (old(faulted) || error)
      ensures effects == old(effects) + When(old(routeIndex) != 0, RouteDeleted(old(routeIndex)))
      ensures old(routeIndex) == 0 ==> !error
    {
      error := false;
      if routeIndex != 0 {
        error := Ask();
        effects := effects + [RouteDeleted(routeIndex)];
        routeIndex, taken := 0, taken.(route := 0);
      }
    }

    method AwaitInterface() returns (error: bool)
      modifies this`effects, this`faulted
      ensures faulted == (old(faulted) || error)
      ensures effects == old(effects) + When(tunnels != [], InterfaceAwaited)
      ensures tunnels == [] ==> !error
    {
      error := false;
      if tunnels != [] {
        error := Ask();
        effects := effects + [InterfaceAwaited];
      }
    }

    method RemoveDirectory() returns (error: bool)
      requires taken.directory == directory
      modifies this`directory, this`effects, this`taken, this`faulted
      ensures !directory && taken == old(taken).(directory := false) && faulted == (old(faulted) || error)
      ensures effects == old(effects) + When(old(directory), DirectoryRemoved)
      ensures !old(directory) ==> !error
    {
      error := false;
      if directory {
        error := Ask();
        effects := effects + [DirectoryRemoved];
        directory, taken := false, taken.(directory := false);
      }
    }

    /** The part of Close after the processes; everything that was taken is given back. */
    method Release() returns (error: bool)
      requires Remembered()
      modifies this`tunnels, this`relay, this`server, this`load, this`routeIndex, this`directory
      modifies this`effects, this`taken, this`faulted
      ensures Closed() && taken == NOTHING
      ensures effects == old(effects) + Releases(old(tunnels), old(load), old(routeIndex), old(directory))
      ensures faulted == (old(faulted) || error) && (old(Closed()) ==> !error)
    {
      hide When;
      CloseLoad();
      error := DeleteRoute();
      var waiting := AwaitInterface();
      tunnels, relay, server := [], null, null;
      var removing := RemoveDirectory();
      error := error || waiting || removing;
    }

    /**
     * Afterwards every process that was ever started has ended, and nothing is left to clean up, so that a second call
     * does nothing at all and succeeds. It fails exactly if the stop of some process did, or something outside.
     */
    method Close() returns (error: bool)
      requires Accounted({}) && Remembered()
      modifies this`tunnels, this`relay, this`server, this`load, this`routeIndex, this`directory
      modifies this`effects, this`taken, this`faulted, this`stopFailed, Held()
      ensures Closed() && taken == NOTHING && forall p :: p in started ==> p.Reaped()
      ensures effects == old(effects)
                         + Cleanup(old(tunnels), old(relay), old(server), old(load), old(routeIndex), old(directory))
      ensures stopFailed <==> exists p :: p in old(Held()) && p.stopFailed
      ensures error ==> stopFailed || faulted
      ensures stopFailed ==> error
      ensures faulted ==> old(faulted) || error
      ensures old(faulted) ==> faulted
      ensures old(Closed()) ==> !error && effects == old(effects)
    {
      hide Cancels, Stops, Releases;
      CancelTunnels();
      var stopping := StopProcesses();
      stopFailed := stopping;
      var failed := Release();
      error := stopping || failed;
      if old(Closed()) {
        NothingToClean();
      }
    }

    ghost predicate EndedEarly()
      reads this, Held()
    {
      (exists k :: 0 <= k < |tunnels| && tunnels[k].Done()) || (relay != null && relay.Done())
    }

    /** Fails exactly if a tunnel process or the relay has ended, or has panicked. */
    method CheckProcesses() returns (error: bool)
      requires Accounted({})
      modifies this`faulted
      ensures error ==> EndedEarly() || faulted
      ensures EndedEarly() ==> error
      ensures faulted ==> old(faulted) || error
      ensures old(faulted) ==> faulted
    {
      error := false;
      for i := 0 to |tunnels|
        invariant (exists k :: 0 <= k < i && tunnels[k].Done()) ==> error
        invariant error ==> (exists k :: 0 <= k < i && tunnels[k].Done()) || faulted
        invariant (faulted ==> old(faulted) || error) && (old(faulted) ==> faulted)
      {
        var panicked := Ask();
        var ended := tunnels[i].Check(panicked);
        error := error || ended;
      }
      if relay != null {
        var panicked := Ask();
        var ended := relay.Check(panicked);
        error := error || ended;
      }
    }

    /** Everything up to the deferred cleanup. */
    method RunCase() returns (error: bool)
      requires Closed() && started == {} && taken == NOTHING
      modifies this`directory, this`load, this`server, this`relay, this`tunnels, this`routeIndex
      modifies this`started, this`taken, this`faulted
      ensures Accounted({}) && Remembered() && fresh(started) && faulted == (old(faulted) || error)
      ensures !error ==> |tunnels| == count && |started| == Helpers() + count + if memory then 0 else 4
    {
      error := Ask();
      if error {
        return;
      }
      directory, taken := true, taken.(directory := true);
      if memory {
        error := RunMemory();
      } else {
        error := RunThroughput();
      }
    }

    /** The deferred cleanup. */
    method Finish(failed: bool) returns (error: bool)
      requires Accounted({}) && Remembered()
      modifies this`tunnels, this`relay, this`server, this`load, this`routeIndex, this`directory, this`cleanupFailed
      modifies this`effects, this`taken, this`faulted, this`stopFailed, this`endedEarly, Held()
      ensures Closed() && taken == NOTHING && forall p :: p in started ==> p.Reaped()
      ensures endedEarly == old(EndedEarly()) && (cleanupFailed ==> error)
      ensures error ==> failed || faulted || endedEarly || stopFailed
      ensures failed || endedEarly || stopFailed ==> error
      ensures (faulted ==> old(faulted) || error) && (old(faulted) ==> faulted)
    {
      hide Cleanup;
      endedEarly := EndedEarly();
      var ended := CheckProcesses();
      cleanupFailed := Close();
      var panicked := Ask();
      error := failed || ended || cleanupFailed || panicked;
    }

    /**
     * However a benchmark goes, every process that it started has been reaped when it returns, exactly once, everything it
     * took is given back, and nothing is left to clean up. It fails exactly if something outside failed, a tunnel process
     * or the relay had ended before the cleanup, or the stop of a process failed. A success has started all its processes.
     */
    method Run() returns (error: bool)
      requires Closed() && started == {} && taken == NOTHING && !faulted
      modifies this
      ensures Closed() && taken == NOTHING && fresh(started) && forall p :: p in started ==> p.Reaped()
      ensures error <==> faulted || endedEarly || stopFailed
      ensures cleanupFailed ==> error
      ensures !error ==> |started| == Helpers() + count + if memory then 0 else 4
    {
      hide EndedEarly;
      var failed := RunCase();
      error := Finish(failed);
    }
  }
}
