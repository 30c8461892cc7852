/**
 * A batch: an ordered list of commands and the sequential runner that, for each
 * command in insertion order, prints its description, executes it and, when
 * execution returned a process, waits for that process.
 */
module Batches {
  import opened Wrappers
  import opened Commands

  /** The exception `addCommand` throws for a null command. */
  datatype BatchError = NullCommand

  /**
   * The observable steps of a run, by position of the command in the batch:
   * its description printed, its `execute()` called, its process waited for.
   */
  datatype Event = Described(index: nat) | Executed(index: nat) | Waited(index: nat)

  /** The steps for the command at position `i`; `launched` says whether its `execute()` returned a process. */
  function StepEvents(i: nat, launched: bool): seq<Event> {
    [Described(i), Executed(i)] + (if launched then [Waited(i)] else [])
  }

  /** The trace of running `cs` in order; `launches(c)` says whether `c.execute()` returns a process. */
  function RunTrace(cs: seq<Command?>, launches: Command -> bool): (t: seq<Event>)
    requires null !in cs
    ensures forall k :: 0 <= k < |t| ==> t[k].index < |cs|
    ensures 2 * |cs| <= |t| <= 3 * |cs|
  {
    if cs == [] then []
    else RunTrace(cs[..|cs| - 1], launches) + StepEvents(|cs| - 1, launches(cs[|cs| - 1]))
  }

  /** The order of steps within one command: description, execution, wait. */
  function Phase(e: Event): nat {
    match e
    case Described(_) => 0
    case Executed(_) => 1
    case Waited(_) => 2
  }

  /** `e` strictly precedes `f` in the run order: an earlier command, or the same command at an earlier phase. */
  predicate Precedes(e: Event, f: Event) {
    e.index < f.index || (e.index == f.index && Phase(e) < Phase(f))
  }

  /**
   * Every command is described and executed, and waited for exactly when its
   * execution returned a process; nothing else happens.
   */
  lemma {:induction false} RunTraceEvents(cs: seq<Command?>, launches: Command -> bool, e: Event)
    requires null !in cs
    ensures e in RunTrace(cs, launches) <==>
              e.index < |cs| && (e.Waited? ==> launches(cs[e.index]))
  {
    if cs != [] {
      var n := |cs| - 1;
      var step := StepEvents(n, launches(cs[n]));
      assert RunTrace(cs, launches) == RunTrace(cs[..n], launches) + step;
      RunTraceEvents(cs[..n], launches, e);
      assert e in step <==> e.index == n && (e.Waited? ==> launches(cs[n]));
      if e.index < n {
        assert cs[..n][e.index] == cs[e.index];
      }
    }
  }

  /**
   * The trace is strictly ordered: each event occurs at most once, all steps of
   * command i come before any step of command i+1, and a description comes
   * before the execution, which comes before the wait.
   */
  lemma {:induction false} RunTraceOrdered(cs: seq<Command?>, launches: Command -> bool)
    requires null !in cs
    ensures forall a, b :: 0 <= a < b < |RunTrace(cs, launches)| ==>
              Precedes(RunTrace(cs, launches)[a], RunTrace(cs, launches)[b])
  {
    if cs != [] {
      var n := |cs| - 1;
      var prefix := RunTrace(cs[..n], launches);
      var step := StepEvents(n, launches(cs[n]));
      RunTraceOrdered(cs[..n], launches);
      forall a | 0 <= a < |prefix|
        ensures prefix[a].index < n
      {
        RunTraceEvents(cs[..n], launches, prefix[a]);
      }
      var t := prefix + step;
      forall a, b | 0 <= a < b < |t|
        ensures Precedes(t[a], t[b])
      {
        if b < |prefix| {
          assert t[a] == prefix[a] && t[b] == prefix[b];
        } else if a < |prefix| {
          assert t[a] == prefix[a] && t[b] == step[b - |prefix|];
        } else {
          assert t[a] == step[a - |prefix|] && t[b] == step[b - |prefix|];
        }
      }
    }
  }

  /** The number of commands in `cs` whose `execute()` returns a process. */
  function LaunchCount(cs: seq<Command?>, launches: Command -> bool): (k: nat)
    requires null !in cs
    ensures k <= |cs|
  {
    if cs == [] then 0
    else LaunchCount(cs[..|cs| - 1], launches) + (if launches(cs[|cs| - 1]) then 1 else 0)
  }

  /** A run emits two events per command plus one wait per command that returned a process. */
  lemma {:induction false} RunTraceLength(cs: seq<Command?>, launches: Command -> bool)
    requires null !in cs
    ensures |RunTrace(cs, launches)| == 2 * |cs| + LaunchCount(cs, launches)
  {
    if cs != [] {
      RunTraceLength(cs[..|cs| - 1], launches);
    }
  }

  class Batch {
    var commandList: seq<Command?>

    /** The list never holds a null command. */
    ghost predicate Valid()
      reads this
    {
      null !in commandList
    }

    constructor ()
      ensures Valid() && commandList == []
    {
      commandList := [];
    }

    /** Appends `cmd`; a null command is refused and the list is left as it was. */
    method AddCommand(cmd: Command?) returns (r: Outcome<BatchError>)
      requires Valid()
      modifies this
      ensures Valid()
      ensures cmd == null ==> r == Fail(NullCommand) && commandList == old(commandList)
      ensures cmd != null ==> r == Pass && commandList == old(commandList) + [cmd]
    {
      if cmd == null {
        r := Fail(NullCommand);
      } else {
        commandList := commandList + [cmd];
        r := Pass;
      }
    }

    /**
     * Runs the commands in the order added and returns the trace of the run.
     * The method has no `modifies` clause: running leaves the list unchanged.
     */
    method Execute(launches: Command -> bool) returns (trace: seq<Event>)
      requires Valid()
      ensures trace == RunTrace(commandList, launches)
    {
      trace := [];
      var i := 0;
      while i < |commandList|
        invariant 0 <= i <= |commandList|
        invariant trace == RunTrace(commandList[..i], launches)
      {
        var c := commandList[i];
        trace := trace + [Described(i)];
        trace := trace + [Executed(i)];
        var p := launches(c);
        if p {
          trace := trace + [Waited(i)];
        }
        assert commandList[..i + 1][..i] == commandList[..i];
        i := i + 1;
      }
      assert commandList[..i] == commandList;
    }
  }
}
