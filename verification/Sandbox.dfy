/** Container sessions (sandbox.py) and the per-task harness choice (runners/routing.py).
    Outcomes of external commands are arbitrary. */
module Sandbox {
  import opened Tasks
  import opened Journal

  /** The machine a run happens on: it keeps the run's journal. */
  class Host {
    var journal: seq<Effect>
    var hasVerify: bool
    var nextName: nat

    constructor ()
      ensures journal == []
    {
      journal, hasVerify, nextName := [], false, 0;
    }

    ghost function B(): Boxes
      reads this
    {
      Containers(journal)
    }

    ghost function P(): Journal.Run
      reads this
    {
      Publication(hasVerify, journal)
    }

    method Log(e: Effect)
      modifies this`journal
      ensures journal == old(journal) + [e]
      ensures B() == WatchBox(old(B()), e) && P() == WatchRun(hasVerify, old(P()), e)
    {
      Append(hasVerify, journal, e);
      journal := journal + [e];
    }
  }

  class ContainerSandbox {
    const host: Host
    const setups: nat
    var container: Option<nat>

    constructor (host: Host, setups: nat)
      ensures this.host == host && this.setups == setups && container == None
    {
      this.host, this.setups, container := host, setups, None;
    }

    /** This session holds the live container, if there is one. */
    ghost predicate InStep()
      reads this, host
    {
      host.B().good && container == host.B().live
    }

    /** Commands may run in the session: nothing was started, or its setup is complete. */
    ghost predicate Usable()
      reads this, host
    {
      InStep() && (container.Some? ==> host.B().left == 0 && !host.B().broken)
    }

    /** Runs the bootstrap commands in order; the first failure raises. */
    method RunSetup(c: nat) returns (ok: bool)
      requires InStep() && container == Some(c) && host.B().left == setups && !host.B().broken
      modifies host`journal
      ensures InStep() && host.P() == old(host.P()) && host.B().starts == old(host.B().starts)
      ensures host.B().outside == old(host.B().outside)
      ensures ok ==> host.B().left == 0 && !host.B().broken
    {
      for i := 0 to setups
        invariant InStep() && host.P() == old(host.P()) && host.B().starts == old(host.B().starts)
        invariant host.B().left == setups - i && !host.B().broken && host.B().outside == old(host.B().outside)
      {
        ok := *;
        host.Log(SetupRan(c, ok));
        if !ok { return; }
      }
      ok := true;
    }

    /** Returns the container to run in, or None when it raises. A container whose setup failed
        stays recorded, so that `Close` removes it. */
    method Wrap() returns (name: Option<nat>)
      requires InStep()
      modifies this`container, host`journal, host`nextName
      ensures InStep() && host.P() == old(host.P()) && host.B().outside == old(host.B().outside)
      ensures name.Some? ==> name == container
      ensures name.Some? && old(Usable()) ==> Usable()
      ensures old(container).Some? ==> container == old(container) && host.journal == old(host.journal)
      ensures host.B().starts == old(host.B().starts) + if old(container).None? && container.Some? then 1 else 0
    {
      var available: bool := *;
      if !available { return None; }
      if container.Some? { return container; }
      var started: bool := *;
      if !started { return None; }
      var c := host.nextName;
      host.nextName := c + 1;
      host.Log(Started(c, setups));
      container := Some(c);
      var ok := RunSetup(c);
      return if ok then container else None;
    }

    method Close()
      requires InStep()
      modifies this`container, host`journal
      ensures InStep() && container == None
      ensures host.P() == old(host.P()) && host.B().starts == old(host.B().starts)
      ensures host.B().outside == old(host.B().outside)
      ensures old(container) == None ==> host.journal == old(host.journal)
    {
      if container.None? { return; }
      var c := container.value;
      container := None;
      host.Log(Removed(c));
    }
  }

  /** Chooses a harness per task; a harness is known by the session it runs in (or none). */
  class RoutingRunner {
    const runners: map<string, ContainerSandbox?>
    const default: string
    const hasDecider: bool
    var cachedTask: Option<Id>
    var cachedChoice: Option<string>
    var asked: nat

    constructor (runners: map<string, ContainerSandbox?>, default: string, hasDecider: bool)
      ensures this.runners == runners && this.default == default && this.hasDecider == hasDecider
      ensures cachedTask == None && cachedChoice == None && asked == 0
    {
      this.runners, this.default, this.hasDecider := runners, default, hasDecider;
      cachedTask, cachedChoice, asked := None, None, 0;
    }

    method Decide() returns (choice: string)
      modifies this`asked
      ensures asked == old(asked) + if hasDecider then 1 else 0
      ensures !hasDecider ==> choice == default
    {
      choice := default;
      if hasDecider {
        asked := asked + 1;
        choice := *;
      }
    }

    /** The choice is made once per task and then remembered. */
    method Choose(task: Id) returns (choice: string)
      modifies this
      ensures cachedTask == Some(task) && cachedChoice == Some(choice)
      ensures old(cachedTask == Some(task) && cachedChoice.Some?) ==>
        Some(choice) == old(cachedChoice) && asked == old(asked)
      ensures asked <= old(asked) + 1
      ensures !old(cachedTask == Some(task) && cachedChoice.Some?) && !hasDecider ==> choice == default
    {
      if cachedTask == Some(task) && cachedChoice.Some? { return cachedChoice.value; }
      choice := Decide();
      cachedTask, cachedChoice := Some(task), Some(choice);
    }

    /** `_runner_for`: the chosen runner, else the default one, else a KeyError. */
    function RunnerFor(choice: string): Option<string> {
      if choice in runners then Some(choice) else if default in runners then Some(default) else None
    }

    /** The session of the runner for this task; `found` is false when the lookup raises. */
    method SessionFor(task: Id) returns (found: bool, session: ContainerSandbox?)
      modifies this
      ensures cachedTask == Some(task) && cachedChoice.Some?
      ensures asked <= old(asked) + 1
      ensures old(cachedTask == Some(task) && cachedChoice.Some?) ==>
        cachedChoice == old(cachedChoice) && asked == old(asked)
      ensures var r := RunnerFor(cachedChoice.value);
        found == r.Some? && session == if r.Some? then runners[r.value] else null
      ensures cachedChoice.value in runners ==> found && session == runners[cachedChoice.value]
      ensures cachedChoice.value !in runners && default in runners ==> found && session == runners[default]
      ensures cachedChoice.value !in runners && default !in runners ==> !found && session == null
    {
      var choice := Choose(task);
      var r := RunnerFor(choice);
      found, session := r.Some?, null;
      if found { session := runners[r.value]; }
    }
  }
}
