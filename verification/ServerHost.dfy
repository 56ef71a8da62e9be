/** The world a server controller acts on: the snippet file, the server process,
    and the record of every command and observation. What the environment may do
    is stated in Effect and Possible, and nowhere else. */
module ServerHost {
  import opened Basics
  import opened ListenSnippet
  import AtomicFile

  /** A daemon that was launched but not yet seen: what it read, and for how many
      more observations it may still come up. */
  datatype Launch = NoLaunch | Pending(content: Option<string>, window: nat)

  datatype World = World(
    ports: Ports,
    snippet: Option<string>,
    up: bool,
    loaded: Option<string>,
    launch: Launch)

  datatype Action =
    | Configured(ports: Ports)
    | Observed(running: bool)
    | Wrote(text: string, ok: bool)
    | RolledBack(tried: Ports, text: string, ok: bool)
    | Tested(content: Option<string>, ok: bool)
    | Started(content: Option<string>, ok: bool)
    | Launched(content: Option<string>, ok: bool)
    | Reloaded(content: Option<string>, ok: bool)
    | Signalled(ok: bool)

  /** A launched daemon comes up within 31 observations (30 polls and the final
      look) or never. */
  const LAUNCH_WINDOW := 31

  /** What an action and its outcome do to the world. A failed command loads
      nothing; a successful one loads the snippet as it then is; a server not seen
      running has gone, and comes back only through a launch. */
  function Effect(w: World, a: Action): World {
    match a
    case Configured(ports) => w.(ports := ports)
    case Observed(running) =>
      if running then
        if w.up then w
        else if w.launch.Pending? then w.(up := true, loaded := w.launch.content, launch := NoLaunch)
        else w
      else
        w.(up := false,
           launch := if w.launch.Pending? && w.launch.window > 1
                     then w.launch.(window := w.launch.window - 1) else NoLaunch)
    case Wrote(text, ok) => if ok then w.(snippet := Some(text)) else w
    case RolledBack(_, text, ok) => if ok then w.(snippet := Some(text)) else w
    case Tested(_, _) => w
    case Started(content, ok) => if ok then w.(up := true, loaded := content) else w
    case Launched(content, ok) => if ok then w.(launch := Pending(content, LAUNCH_WINDOW)) else w
    case Reloaded(content, ok) => if ok && w.up then w.(loaded := content) else w
    case Signalled(_) => w
  }

  /** What can happen at all: nobody else starts the server, and commands read the
      snippet as it is. */
  predicate Possible(w: World, a: Action) {
    match a
    case Observed(running) => running ==> w.up || w.launch.Pending?
    case Tested(content, _) => content == w.snippet
    case Started(content, _) => content == w.snippet
    case Launched(content, _) => content == w.snippet
    case Reloaded(content, _) => content == w.snippet
    case _ => true
  }

  /** A server that is up serves the ports the controller reports: the text it has
      loaded, read as the server reads it, says so. */
  predicate ServesReported(d: Dialect, w: World) {
    w.up ==> w.loaded.Some? && ListensOn(d, w.loaded.value, w.ports)
  }

  /** It does when it has loaded their rendering. */
  predicate LoadsReported(d: Dialect, w: World) {
    w.up ==> w.loaded == Some(Render(d, w.ports))
  }

  lemma LoadedIsServed(d: Dialect, w: World)
    requires LoadsReported(d, w)
    ensures ServesReported(d, w)
  {
    hide Render, ListensOn;
    RenderIsRead(d, w.ports);
  }

  function Replay(w: World, trace: seq<Action>): World {
    if trace == [] then w else Effect(Replay(w, trace[..|trace| - 1]), trace[|trace| - 1])
  }

  predicate AllPossible(w: World, trace: seq<Action>) {
    trace == [] ||
    (AllPossible(w, trace[..|trace| - 1]) && Possible(Replay(w, trace[..|trace| - 1]), trace[|trace| - 1]))
  }

  lemma ReplayOne(w: World, trace: seq<Action>, a: Action)
    ensures Replay(w, trace + [a]) == Effect(Replay(w, trace), a)
    ensures AllPossible(w, trace + [a]) <==> AllPossible(w, trace) && Possible(Replay(w, trace), a)
  {
    assert (trace + [a])[..|trace|] == trace;
  }

  /** How a write is recorded: plainly, or as the rollback of what was tried. */
  function WriteAction(tried: Option<Ports>, text: string, ok: bool): Action {
    if tried.Some? then RolledBack(tried.value, text, ok) else Wrote(text, ok)
  }

  // ---- The controllers' discipline ---------------------------------------------------

  predicate Starts(a: Action) {
    a.Started? || a.Launched?
  }

  /** Whether an action may follow a trace: snippets written are the rendering of
      the current ports; a rollback writes over the rendering it tried; a start
      follows at once on a passing test of the snippet just written after the server
      was seen down; a reload follows at once on a passing test of what it loads, the
      server having been seen up. */
  predicate MayFollow(d: Dialect, w: World, trace: seq<Action>, a: Action) {
    var n := |trace|;
    match a
    case Wrote(text, _) => text == Render(d, Replay(w, trace).ports)
    case RolledBack(tried, text, _) =>
      text == Render(d, Replay(w, trace).ports) && Replay(w, trace).snippet == Some(Render(d, tried))
    case Started(content, _) => StartAllowed(trace, content)
    case Launched(content, _) => StartAllowed(trace, content)
    case Reloaded(content, _) =>
      n >= 2 && trace[n - 1] == Tested(content, true) && trace[n - 2] == Observed(true)
    case _ => true
  }

  predicate StartAllowed(trace: seq<Action>, content: Option<string>) {
    var n := |trace|;
    && n >= 3 && content.Some?
    && trace[n - 1] == Tested(content, true)
    && trace[n - 2] == Wrote(content.value, true)
    && trace[n - 3] == Observed(false)
  }

  /** Observed down, written and tested: a start may follow. */
  lemma MayStart(before: seq<Action>, text: string)
    requires before != [] && before[|before| - 1] == Observed(false)
    ensures StartAllowed(before + [Wrote(text, true), Tested(Some(text), true)], Some(text))
  {
  }

  predicate Disciplined(d: Dialect, w: World, trace: seq<Action>) {
    trace == [] ||
    (Disciplined(d, w, trace[..|trace| - 1]) && MayFollow(d, w, trace[..|trace| - 1], trace[|trace| - 1]))
  }

  lemma DisciplinedOne(d: Dialect, w: World, trace: seq<Action>, a: Action)
    ensures Disciplined(d, w, trace + [a]) <==> Disciplined(d, w, trace) && MayFollow(d, w, trace, a)
  {
    assert (trace + [a])[..|trace|] == trace;
  }

  lemma {:induction false} DisciplinedUpTo(d: Dialect, w: World, trace: seq<Action>, k: nat)
    requires Disciplined(d, w, trace) && k < |trace|
    ensures Disciplined(d, w, trace[..k]) && MayFollow(d, w, trace[..k], trace[k])
    decreases |trace|
  {
    if k == |trace| - 1 {
    } else {
      var front := trace[..|trace| - 1];
      DisciplinedUpTo(d, w, front, k);
      assert front[..k] == trace[..k];
    }
  }

  /** What discipline means for every start in a trace, whenever it comes: the
      server had just been observed down, and what is started is the rendering of
      the ports current at that moment, freshly written and tested. */
  lemma EveryStartIsGuarded(d: Dialect, w: World, trace: seq<Action>, k: nat)
    requires Disciplined(d, w, trace) && k < |trace| && Starts(trace[k])
    ensures k >= 3 && trace[k - 3] == Observed(false)
    ensures var text := Render(d, Replay(w, trace[..k]).ports);
            && trace[k].content == Some(text)
            && trace[k - 2] == Wrote(text, true) && trace[k - 1] == Tested(Some(text), true)
  {
    hide Disciplined, Replay, AllPossible, Render;
    DisciplinedUpTo(d, w, trace, k);
    DisciplinedUpTo(d, w, trace, k - 2);
    var text := trace[k].content.value;
    assert trace[..k] == trace[..k - 2] + [trace[k - 2]] + [trace[k - 1]];
    ReplayOne(w, trace[..k - 2], trace[k - 2]);
    ReplayOne(w, trace[..k - 2] + [trace[k - 2]], trace[k - 1]);
  }

  /** And for every reload. */
  lemma EveryReloadIsGuarded(d: Dialect, w: World, trace: seq<Action>, k: nat)
    requires Disciplined(d, w, trace) && k < |trace| && trace[k].Reloaded?
    ensures k >= 2 && trace[k - 1] == Tested(trace[k].content, true) && trace[k - 2] == Observed(true)
  {
    DisciplinedUpTo(d, w, trace, k);
  }

  // ---- Lost rollbacks ------------------------------------------------------------------

  /** The ports a lost rollback left in the snippet, until the next good write. */
  function Leftover(trace: seq<Action>): Option<Ports> {
    if trace == [] then None
    else LeftoverAfter(Leftover(trace[..|trace| - 1]), trace[|trace| - 1])
  }

  function LeftoverAfter(left: Option<Ports>, a: Action): Option<Ports> {
    match a
    case Wrote(_, ok) => if ok then None else left
    case RolledBack(tried, _, ok) => if ok then None else Some(tried)
    case _ => left
  }

  /** Whether a server has drifted away from the options: it does so by loading
      other ports than the options' that a lost rollback left behind, and it is back
      with the next start, or the next reload that does not do the same. */
  predicate Drift(d: Dialect, w: World, trace: seq<Action>) {
    trace != [] &&
    var front := trace[..|trace| - 1];
    DriftAfter(d, Leftover(front), Replay(w, front).ports, Drift(d, w, front), trace[|trace| - 1])
  }

  predicate DriftAfter(d: Dialect, left: Option<Ports>, ports: Ports, drift: bool, a: Action) {
    match a
    case Started(_, true) => false
    case Reloaded(_, true) => left.Some? && !SamePorts(d, left.value, ports)
    case _ => drift
  }

  /** What one more action makes of what a record says. */
  lemma Recorded(d: Dialect, w: World, trace: seq<Action>, a: Action)
    ensures Disciplined(d, w, trace + [a]) <==> Disciplined(d, w, trace) && MayFollow(d, w, trace, a)
    ensures Leftover(trace + [a]) == LeftoverAfter(Leftover(trace), a)
    ensures Drift(d, w, trace + [a])
            <==> DriftAfter(d, Leftover(trace), Replay(w, trace).ports, Drift(d, w, trace), a)
  {
    assert (trace + [a])[..|trace|] == trace;
  }

  /** Action i is a rollback write that failed, and no later action before k is a
      good write or another rollback. */
  predicate LostAt(trace: seq<Action>, i: nat, k: nat) {
    && i < k <= |trace| && trace[i].RolledBack? && !trace[i].ok
    && forall x | i < x < k :: !trace[x].RolledBack? && (trace[x].Wrote? ==> !trace[x].ok)
  }

  /** After a rollback write nothing earlier counts. */
  lemma LostNow(front: seq<Action>, last: Action, i: nat)
    requires last.RolledBack?
    ensures LostAt(front + [last], i, |front| + 1) <==> i == |front| && !last.ok
  {
    var trace := front + [last];
    assert trace[|front|] == last;
  }

  /** After any other action, what was lost stays lost, unless it is a good write. */
  lemma LostStill(front: seq<Action>, last: Action, i: nat)
    requires !last.RolledBack?
    ensures LostAt(front + [last], i, |front| + 1) <==> LostAt(front, i, |front|) && !(last.Wrote? && last.ok)
    ensures LostAt(front, i, |front|) ==> (front + [last])[i] == front[i]
  {
    var trace := front + [last];
    assert trace[|front|] == last && forall x | 0 <= x < |front| :: trace[x] == front[x];
    if LostAt(trace, i, |front| + 1) {
      assert forall x | i < x < |front| :: front[x] == trace[x];
    }
  }

  lemma LostWithin(trace: seq<Action>)
    ensures forall i: nat | LostAt(trace, i, |trace|) :: i < |trace| && trace[i].RolledBack?
  {
  }

  /** What is left over, said in one breath: the ports of the last lost rollback,
      if no write has succeeded since. */
  lemma {:induction false} LeftoverExactly(trace: seq<Action>, tried: Ports)
    ensures Leftover(trace) == Some(tried) <==> exists i: nat :: LostAt(trace, i, |trace|) && trace[i].tried == tried
  {
    if trace == [] {
    } else {
      var front, last := trace[..|trace| - 1], trace[|trace| - 1];
      LeftoverExactly(front, tried);
      assert trace == front + [last];
      LostWithin(front);
      hide LostAt;
      forall i: nat
        ensures last.RolledBack? ==> (LostAt(trace, i, |trace|) <==> i == |front| && !last.ok)
        ensures !last.RolledBack? ==>
                  (LostAt(trace, i, |trace|) <==> LostAt(front, i, |front|) && !(last.Wrote? && last.ok))
      {
        if last.RolledBack? {
          LostNow(front, last, i);
        } else {
          LostStill(front, last, i);
        }
      }
    }
  }

  predicate Loads(a: Action) {
    (a.Started? || a.Reloaded?) && a.ok
  }

  /** Action j is a reload that loads what a lost rollback left behind, other ports
      than the options', and nothing is loaded after it. */
  ghost predicate DriftsAt(d: Dialect, w: World, trace: seq<Action>, j: nat) {
    && j < |trace| && trace[j].Reloaded? && trace[j].ok
    && (forall x | j < x < |trace| :: !Loads(trace[x]))
    && exists i: nat :: LostAt(trace, i, j) && !SamePorts(d, trace[i].tried, Replay(w, trace[..j]).ports)
  }

  lemma LostAtFront(front: seq<Action>, last: Action, i: nat, k: nat)
    requires k <= |front|
    ensures LostAt(front + [last], i, k) <==> LostAt(front, i, k)
  {
    var trace := front + [last];
    assert forall x | 0 <= x < |front| :: trace[x] == front[x];
    if LostAt(trace, i, k) {
      assert forall x | i < x < k :: front[x] == trace[x];
    }
  }

  lemma DriftsAtFront(d: Dialect, w: World, front: seq<Action>, last: Action, j: nat)
    requires j < |front|
    ensures DriftsAt(d, w, front + [last], j) <==> DriftsAt(d, w, front, j) && !Loads(last)
  {
    var trace := front + [last];
    assert trace[..j] == front[..j];
    assert forall x | 0 <= x < |front| :: trace[x] == front[x];
    forall i: nat ensures LostAt(trace, i, j) <==> LostAt(front, i, j) {
      LostAtFront(front, last, i, j);
    }
    if DriftsAt(d, w, trace, j) {
      assert !Loads(trace[|front|]);
      assert forall x | j < x < |front| :: !Loads(front[x]) by {
        assert forall x | j < x < |front| :: front[x] == trace[x];
      }
    }
  }

  lemma DriftsAtEnd(d: Dialect, w: World, front: seq<Action>, last: Action)
    requires last.Reloaded? && last.ok
    ensures DriftsAt(d, w, front + [last], |front|)
            <==> Leftover(front).Some? && !SamePorts(d, Leftover(front).value, Replay(w, front).ports)
  {
    hide Leftover, Replay, SamePorts;
    var trace, left := front + [last], Leftover(front);
    assert trace[..|front|] == front;
    forall i: nat ensures LostAt(trace, i, |front|) <==> LostAt(front, i, |front|) {
      LostAtFront(front, last, i, |front|);
    }
    if left.Some? {
      LeftoverExactly(front, left.value);
      var i: nat :| LostAt(front, i, |front|) && front[i].tried == left.value;
      assert LostAt(trace, i, |front|) && trace[i].tried == left.value;
    }
    forall i: nat | LostAt(front, i, |front|) ensures left == Some(front[i].tried) {
      LeftoverExactly(front, front[i].tried);
    }
  }

  /** Drift, said in one breath: some rollback was lost, and before any good write
      a reload loaded its leftover, and nothing has been loaded since. */
  lemma {:induction false} DriftExactly(d: Dialect, w: World, trace: seq<Action>)
    ensures Drift(d, w, trace) <==> exists j: nat :: DriftsAt(d, w, trace, j)
  {
    if trace == [] {
    } else {
      var front, last := trace[..|trace| - 1], trace[|trace| - 1];
      DriftExactly(d, w, front);
      hide DriftsAt, Leftover, Replay, SamePorts;
      assert trace == front + [last];
      forall j: nat | j < |front|
        ensures DriftsAt(d, w, trace, j) <==> DriftsAt(d, w, front, j) && !Loads(last)
      {
        DriftsAtFront(d, w, front, last, j);
      }
      DriftsAtBounds(d, w, front, last);
      if last.Reloaded? && last.ok {
        DriftsAtEnd(d, w, front, last);
      }
    }
  }

  lemma DriftsAtBounds(d: Dialect, w: World, front: seq<Action>, last: Action)
    ensures forall j: nat | DriftsAt(d, w, front + [last], j) ::
              j < |front| || (j == |front| && last.Reloaded? && last.ok)
    ensures forall j: nat | DriftsAt(d, w, front, j) :: j < |front|
  {
  }

  /** How a child process ended. */
  datatype Exit = Exit(code: int, output: string, error: string)

  /** What the environment will answer to each recorded action, to each attempt to
      make a directory, and to a look at the pid file after so many actions. Any
      script is possible. */
  datatype Script = Script(acts: nat -> bool, dirs: nat -> bool, pids: nat -> int)

  /** The first of so many polls from action n on that is answered like this, or the
      action after them. */
  function FirstPoll(s: Script, n: nat, polls: nat, answer: bool): (k: nat)
    ensures n <= k <= n + polls && forall j | n <= j < k :: s.acts(j) != answer
    ensures k < n + polls ==> s.acts(k) == answer
    decreases polls
  {
    if polls == 0 || s.acts(n) == answer then n else FirstPoll(s, n + 1, polls - 1, answer)
  }

  lemma FirstPollIs(s: Script, n: nat, polls: nat, answer: bool, k: nat)
    requires n <= k <= n + polls && forall j | n <= j < k :: s.acts(j) != answer
    requires k < n + polls ==> s.acts(k) == answer
    ensures FirstPoll(s, n, polls, answer) == k
  {
  }

  /** Waiting from action n on for a running server to go: 50 polls and a final look.
      It works if one of them is answered with no. */
  predicate GoesDown(s: Script, n: nat) {
    exists j | n <= j <= n + 50 :: !s.acts(j)
  }

  /** The number of actions when such a wait has worked. */
  function DownAfter(s: Script, n: nat): nat {
    var k := FirstPoll(s, n, 50, false);
    if k < n + 50 then k + 2 else k + 1
  }

  /** How the wait ends when the first so many polls are answered with yes. */
  lemma DownOnce(s: Script, n: nat, polls: nat)
    requires polls <= 50 && forall j | n <= j < n + polls :: s.acts(j)
    ensures polls < 50 && !s.acts(n + polls) ==> GoesDown(s, n) && DownAfter(s, n) == n + polls + 2
    ensures polls == 50 ==> (GoesDown(s, n) <==> !s.acts(n + 50)) && DownAfter(s, n) == n + 51
  {
    if polls == 50 || !s.acts(n + polls) {
      FirstPollIs(s, n, 50, false, n + polls);
    }
  }

  /** Waiting from action n on for a launched server to come: 30 polls, until one is
      answered with yes, and the final look at this action. */
  function LastLook(s: Script, n: nat): nat {
    var k := FirstPoll(s, n, 30, true);
    if k < n + 30 then k + 1 else k
  }

  /** How it ends when the first so many polls are answered with no. */
  lemma UpOnce(s: Script, n: nat, polls: nat)
    requires polls <= 30 && forall j | n <= j < n + polls :: !s.acts(j)
    ensures polls < 30 && s.acts(n + polls) ==> LastLook(s, n) == n + polls + 1
    ensures polls == 30 ==> LastLook(s, n) == n + 30
  {
    if polls == 30 || s.acts(n + polls) {
      FirstPollIs(s, n, 30, true, n + polls);
    }
  }

  datatype DirAttempt = DirAttempt(path: string, ok: bool)

  class Host {
    const dialect: Dialect
    const disk: AtomicFile.Disk
    const script: Script
    ghost const first: World
    ghost var ports: Ports
    var up: bool
    var loaded: Option<string>
    var launch: Launch
    ghost var trace: seq<Action>
    ghost var dirs: seq<DirAttempt>
    var acted: nat
    var dirsTried: nat

    ghost function Now(): World
      reads this, disk
    {
      World(ports, disk.fs.target, up, loaded, launch)
    }

    /** The record explains the state, and follows the environment's rules. */
    ghost predicate Valid()
      reads this, disk
    {
      && Now() == Replay(first, trace) && AllPossible(first, trace)
      && acted == |trace| && dirsTried == |dirs|
    }

    /** A stopped server, and whatever snippet is already there. */
    constructor (dialect: Dialect, ports: Ports, snippet: Option<string>, script: Script)
      ensures Valid() && trace == [] && dirs == [] && fresh(disk)
      ensures this.dialect == dialect && this.script == script
      ensures Now() == World(ports, snippet, false, None, NoLaunch)
      ensures first == Now()
    {
      this.dialect, this.ports, up, loaded, launch := dialect, ports, false, None, NoLaunch;
      this.script, acted, dirsTried := script, 0, 0;
      disk := new AtomicFile.Disk(snippet);
      trace, dirs := [], [];
      first := World(ports, snippet, false, None, NoLaunch);
    }

    /** Records an action that has just had its effect. */
    method Note(ghost before: World, ghost a: Action)
      requires before == Replay(first, trace) && AllPossible(first, trace)
      requires acted == |trace| && dirsTried == |dirs|
      requires Possible(before, a) && Now() == Effect(before, a)
      modifies this`trace, this`acted
      ensures Valid() && trace == old(trace) + [a]
    {
      ReplayOne(first, trace, a);
      trace := trace + [a];
      acted := acted + 1;
    }

    /** The controller's own port settings changed. */
    method Configure(ghost p: Ports)
      requires Valid()
      modifies this`ports, this`trace, this`acted
      ensures Valid() && trace == old(trace) + [Configured(p)]
      ensures Now() == Effect(old(Now()), Configured(p))
    {
      ghost var before := Now();
      ports := p;
      Note(before, Configured(p));
    }

    /** A running server may have died, a launched one may have come up. */
    method IsRunning() returns (running: bool)
      requires Valid()
      modifies this`up, this`loaded, this`launch, this`trace, this`acted
      ensures Valid() && trace == old(trace) + [Observed(running)]
      ensures running == ((old(up) || old(launch).Pending?) && script.acts(|old(trace)|))
      ensures Now() == Effect(old(Now()), Observed(running))
    {
      ghost var before := Now();
      running := (up || launch.Pending?) && script.acts(acted);
      if running {
        if !up {
          up, loaded, launch := true, launch.content, NoLaunch;
        }
      } else {
        up := false;
        launch := if launch.Pending? && launch.window > 1 then launch.(window := launch.window - 1) else NoLaunch;
      }
      Note(before, Observed(running));
    }

    method EnsureDir(path: string) returns (ok: bool)
      requires Valid()
      modifies this`dirs, this`dirsTried
      ensures Valid() && ok == script.dirs(|old(dirs)|)
      ensures dirs == old(dirs) + [DirAttempt(path, ok)]
    {
      ok := script.dirs(dirsTried);
      dirs := dirs + [DirAttempt(path, ok)];
      dirsTried := dirsTried + 1;
    }

    /** Writes the snippet; tried is what the write rolls back, for the record only. */
    method WriteSnippet(text: string, ghost tried: Option<Ports>) returns (ok: bool, error: string)
      requires Valid()
      modifies this`trace, this`acted, disk
      ensures Valid() && trace == old(trace) + [WriteAction(tried, text, ok)]
      ensures ok == script.acts(|old(trace)|)
      ensures Now() == Effect(old(Now()), WriteAction(tried, text, ok))
      ensures !ok ==> error != ""
    {
      ghost var before := Now();
      var fault := AtomicFile.NoFault;
      if !script.acts(acted) {
        assert AtomicFile.CannotOpen != AtomicFile.NoFault;
        fault :| fault != AtomicFile.NoFault;
      }
      ok, error := disk.WriteFileAtomic(text, fault);
      Note(before, WriteAction(tried, text, ok));
    }

    /** Runs a child. Whether it exits with 0 is the script's choice; its code
        otherwise, and what it prints, are anybody's. */
    method Spawn() returns (e: Exit)
      ensures e.code == 0 <==> script.acts(acted)
    {
      var code: int := *;
      if script.acts(acted) {
        code := 0;
      } else if code == 0 {
        code := 1;
      }
      var output: string := *;
      var error: string := *;
      e := Exit(code, output, error);
    }

    method TestConfig() returns (e: Exit)
      requires Valid()
      modifies this`trace, this`acted
      ensures Valid() && trace == old(trace) + [Tested(old(Now()).snippet, e.code == 0)]
      ensures e.code == 0 <==> script.acts(|old(trace)|)
      ensures Now() == old(Now())
    {
      e := Spawn();
      Note(Now(), Tested(disk.fs.target, e.code == 0));
    }

    /** A start that reports success only once the server is up. */
    method Start() returns (e: Exit)
      requires Valid()
      modifies this`up, this`loaded, this`trace, this`acted
      ensures Valid() && trace == old(trace) + [Started(old(Now()).snippet, e.code == 0)]
      ensures e.code == 0 <==> script.acts(|old(trace)|)
      ensures Now() == Effect(old(Now()), Started(old(Now()).snippet, e.code == 0))
    {
      ghost var before := Now();
      e := Spawn();
      if e.code == 0 {
        up, loaded := true, disk.fs.target;
      }
      Note(before, Started(before.snippet, e.code == 0));
    }

    /** A start that only reports the fork. */
    method LaunchDaemon() returns (e: Exit)
      requires Valid()
      modifies this`launch, this`trace, this`acted
      ensures Valid() && trace == old(trace) + [Launched(old(Now()).snippet, e.code == 0)]
      ensures e.code == 0 <==> script.acts(|old(trace)|)
      ensures Now() == Effect(old(Now()), Launched(old(Now()).snippet, e.code == 0))
    {
      ghost var before := Now();
      e := Spawn();
      if e.code == 0 {
        launch := Pending(disk.fs.target, LAUNCH_WINDOW);
      }
      Note(before, Launched(before.snippet, e.code == 0));
    }

    method Reload() returns (e: Exit)
      requires Valid()
      modifies this`loaded, this`trace, this`acted
      ensures Valid() && trace == old(trace) + [Reloaded(old(Now()).snippet, e.code == 0)]
      ensures e.code == 0 <==> script.acts(|old(trace)|)
      ensures Now() == Effect(old(Now()), Reloaded(old(Now()).snippet, e.code == 0))
    {
      ghost var before := Now();
      e := Spawn();
      if e.code == 0 && up {
        loaded := disk.fs.target;
      }
      Note(before, Reloaded(before.snippet, e.code == 0));
    }

    /** Asks the server to go, by a command; it goes later, or not at all. */
    method Quit() returns (e: Exit)
      requires Valid()
      modifies this`trace, this`acted
      ensures Valid() && trace == old(trace) + [Signalled(e.code == 0)]
      ensures e.code == 0 <==> script.acts(|old(trace)|)
      ensures Now() == old(Now())
    {
      e := Spawn();
      Note(Now(), Signalled(e.code == 0));
    }

    method ReadPid() returns (pid: int)
      requires Valid()
      ensures pid == script.pids(|trace|)
    {
      pid := script.pids(acted);
    }

    /** Asks the server to go, by a signal. */
    method SignalPid(pid: int) returns (ok: bool, error: string)
      requires Valid()
      modifies this`trace, this`acted
      ensures Valid() && trace == old(trace) + [Signalled(ok)]
      ensures ok == script.acts(|old(trace)|)
      ensures Now() == old(Now())
      ensures !ok ==> error != ""
    {
      ok := script.acts(acted);
      error := if ok then "" else "kill failed";
      Note(Now(), Signalled(ok));
    }
  }

  /** The calls a host can make. */
  datatype Call = TurnOn | TurnOff | Restart | ReloadConfig | SetPorts(ports: Ports)

  /** The last pair of ports a call accepted, else the initial pair. */
  function LastAccepted(initial: Ports, calls: seq<Call>, results: seq<bool>): Ports
    requires |calls| == |results|
  {
    var n := |calls|;
    if n == 0 then initial
    else if calls[n - 1].SetPorts? && results[n - 1] then calls[n - 1].ports
    else LastAccepted(initial, calls[..n - 1], results[..n - 1])
  }

  lemma AcceptOne(initial: Ports, calls: seq<Call>, results: seq<bool>, call: Call, ok: bool)
    requires |calls| == |results|
    ensures LastAccepted(initial, calls + [call], results + [ok])
            == if call.SetPorts? && ok then call.ports else LastAccepted(initial, calls, results)
  {
    assert (calls + [call])[..|calls|] == calls && (results + [ok])[..|calls|] == results;
  }
}
