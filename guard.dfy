/** The static state every AndroidClassLoader shares: the ReentrantLock that
    serialises compiles to a durable dex file and `dexRunningThreads`, the set of
    hash codes of threads inside `dexJar`. Threads are identified by their hash
    codes; the model is sequential, so the lock is a hold count. */
module Guard {

  /** What happened to the shared state, in order. */
  datatype GuardEvent =
    | Acquire            // lock.lock()
    | Release            // lock.unlock()
    | Enter(thread: int) // persistThread(): dexRunningThreads.add
    | Leave(thread: int) // removeThread(): dexRunningThreads.remove
    | RunCompiler        // an invocation of the dx compiler

  /** Acquisitions minus releases. */
  function Depth(log: seq<GuardEvent>): int
  {
    if log == [] then 0
    else Depth(log[..|log| - 1]) + match log[|log| - 1]
      case Acquire => 1
      case Release => -1
      case _ => 0
  }

  /** The threads whose last Enter/Leave event is an Enter. */
  function BusyAfter(log: seq<GuardEvent>): set<int>
  {
    if log == [] then {}
    else match log[|log| - 1]
      case Enter(t) => BusyAfter(log[..|log| - 1]) + {t}
      case Leave(t) => BusyAfter(log[..|log| - 1]) - {t}
      case _ => BusyAfter(log[..|log| - 1])
  }

  /** How often the dx compiler ran. */
  function CompilerRuns(log: seq<GuardEvent>): nat
  {
    multiset(log)[RunCompiler]
  }

  class DexGuard {
    var running: set<int>   // dexRunningThreads
    var holdCount: nat      // how often the current thread holds `lock`
    var log: seq<GuardEvent>

    /** The fields are what the log says happened since class initialisation. */
    ghost predicate Valid()
      reads this
    {
      holdCount == Depth(log) && running == BusyAfter(log)
    }

    /** Static initialisation: an unlocked lock and an empty set. */
    constructor ()
      ensures Valid() && running == {} && holdCount == 0 && log == []
    {
      running := {};
      holdCount := 0;
      log := [];
    }

    /** `lock.lock()` (sequentially: the current thread takes it once more). */
    method Lock()
      requires Valid()
      modifies this
      ensures Valid()
      ensures holdCount == old(holdCount) + 1 && running == old(running)
      ensures log == old(log) + [Acquire]
    {
      log := log + [Acquire];
      holdCount := holdCount + 1;
    }

    /** `lock.unlock()`, by the thread that holds it. */
    method Unlock()
      requires Valid() && holdCount > 0
      modifies this
      ensures Valid()
      ensures holdCount == old(holdCount) - 1 && running == old(running)
      ensures log == old(log) + [Release]
    {
      log := log + [Release];
      holdCount := holdCount - 1;
    }

    /** `persistThread()`: the current thread is inside dynamically loaded code. */
    method PersistThread(thread: int)
      requires Valid()
      modifies this
      ensures Valid()
      ensures running == old(running) + {thread} && holdCount == old(holdCount)
      ensures log == old(log) + [Enter(thread)]
    {
      log := log + [Enter(thread)];
      running := running + {thread};
    }

    /** `removeThread()`. */
    method RemoveThread(thread: int)
      requires Valid()
      modifies this
      ensures Valid()
      ensures running == old(running) - {thread} && holdCount == old(holdCount)
      ensures log == old(log) + [Leave(thread)]
    {
      log := log + [Leave(thread)];
      running := running - {thread};
    }

    /** Records one invocation of the dx compiler. */
    method NoteCompilerRun()
      requires Valid()
      modifies this
      ensures Valid()
      ensures running == old(running) && holdCount == old(holdCount)
      ensures log == old(log) + [RunCompiler]
    {
      log := log + [RunCompiler];
    }
  }

  /** The events one `dexJar` call adds: the lock around everything when a
      durable dex file is the target, the busy marker around the compile. */
  function DexJarEvents(durable: bool, thread: int): seq<GuardEvent>
  {
    (if durable then [Acquire] else [])
    + [Enter(thread), RunCompiler, Leave(thread)]
    + (if durable then [Release] else [])
  }

  /** Appending one event moves the depth and the busy set by that event alone. */
  lemma Step(log: seq<GuardEvent>, e: GuardEvent)
    ensures Depth(log + [e]) == Depth(log) + (if e == Acquire then 1 else if e == Release then -1 else 0)
    ensures BusyAfter(log + [e]) ==
      if e.Enter? then BusyAfter(log) + {e.thread}
      else if e.Leave? then BusyAfter(log) - {e.thread}
      else BusyAfter(log)
  {
    assert (log + [e])[..|log + [e]| - 1] == log;
  }

  /** Every `dexJar` call takes the lock exactly when it compiles to a durable
      dex file, releases it exactly as often, runs the compiler once (with the
      lock held in that case), and leaves the lock's hold count as it found it
      and the calling thread out of the busy set. */
  lemma DexJarDiscipline(before: seq<GuardEvent>, durable: bool, thread: int)
    ensures var seg := DexJarEvents(durable, thread);
      && multiset(seg)[Acquire] == multiset(seg)[Release] == (if durable then 1 else 0)
      && CompilerRuns(before + seg) == CompilerRuns(before) + 1
      && Depth(before + seg) == Depth(before)
      && BusyAfter(before + seg) == BusyAfter(before) - {thread}
      && (durable ==> seg[2] == RunCompiler && Depth(before + seg[..2]) == Depth(before) + 1)
  {
    var seg := DexJarEvents(durable, thread);
    if durable {
      assert seg == [Acquire, Enter(thread), RunCompiler, Leave(thread), Release];
      DurableSegment(before, thread);
    } else {
      assert seg == [Enter(thread), RunCompiler, Leave(thread)];
      AdHocSegment(before, thread);
    }
  }

  lemma DurableSegment(before: seq<GuardEvent>, thread: int)
    ensures var seg := [Acquire, Enter(thread), RunCompiler, Leave(thread), Release];
      && Depth(before + seg) == Depth(before)
      && BusyAfter(before + seg) == BusyAfter(before) - {thread}
      && Depth(before + seg[..2]) == Depth(before) + 1
  {
    var s1 := before + [Acquire];
    var s2 := s1 + [Enter(thread)];
    var s3 := s2 + [RunCompiler];
    var s4 := s3 + [Leave(thread)];
    Step(before, Acquire);
    Step(s1, Enter(thread));
    Step(s2, RunCompiler);
    Step(s3, Leave(thread));
    Step(s4, Release);
    assert s4 + [Release] == before + [Acquire, Enter(thread), RunCompiler, Leave(thread), Release];
    assert [Acquire, Enter(thread), RunCompiler, Leave(thread), Release][..2] == [Acquire, Enter(thread)];
    assert s2 == before + [Acquire, Enter(thread)];
  }

  lemma AdHocSegment(before: seq<GuardEvent>, thread: int)
    ensures var seg := [Enter(thread), RunCompiler, Leave(thread)];
      && Depth(before + seg) == Depth(before)
      && BusyAfter(before + seg) == BusyAfter(before) - {thread}
  {
    var s1 := before + [Enter(thread)];
    var s2 := s1 + [RunCompiler];
    Step(before, Enter(thread));
    Step(s1, RunCompiler);
    Step(s2, Leave(thread));
    assert s2 + [Leave(thread)] == before + [Enter(thread), RunCompiler, Leave(thread)];
  }
}
