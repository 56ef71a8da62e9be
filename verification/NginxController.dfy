/** Starting, stopping, reloading and re-porting nginx. */
module NginxControllers {
  import opened Basics
  import opened ListenSnippet
  import opened ServerHost
  import Codec

  const LEAF_DIRS := ["/client_body", "/proxy", "/fastcgi", "/uwsgi", "/scgi"]
  const STOP_POLLS := 50

  /** The snippet holds the reported ports, or what a lost rollback left behind. */
  predicate SnippetKnown(d: Dialect, w: World, left: Option<Ports>) {
    w.snippet == Some(Render(d, if left.Some? then left.value else w.ports))
  }

  /** Between calls: the snippet of a running server is known, and the server
      serves the reported ports exactly when it has not drifted. */
  predicate Settled(d: Dialect, w: World, left: Option<Ports>, drifted: bool) {
    && (w.up || left.Some? ==> SnippetKnown(d, w, left))
    && (w.up ==> w.loaded.Some? && (ServesReported(d, w) <==> !drifted))
  }

  /** Loading a known snippet settles what the server serves. */
  lemma LoadSettles(d: Dialect, w: World, left: Option<Ports>)
    requires SnippetKnown(d, w, left)
    ensures Settled(d, w.(loaded := w.snippet), left, left.Some? && !SamePorts(d, left.value, w.ports))
  {
    hide Render, SamePorts, ListensOn;
    if left.Some? {
      ListensExactly(d, left.value, w.ports);
    } else {
      RenderIsRead(d, w.ports);
    }
  }

  /** A stopped server is settled as soon as the snippet is, or nothing is left over. */
  lemma DownSettles(d: Dialect, w: World, left: Option<Ports>, drifted: bool)
    requires !w.up && (left.Some? ==> SnippetKnown(d, w, left))
    ensures Settled(d, w, left, drifted)
  {
  }

  lemma SeenDown(d: Dialect, w: World, left: Option<Ports>, drifted: bool)
    requires Settled(d, w, left, drifted)
    ensures Settled(d, w.(up := false), left, drifted)
    ensures w.up || left.Some? ==> SnippetKnown(d, w, left)
  {
  }

  /** Putting the old ports back settles the snippet, and leaves the server as it was. */
  lemma BackSettles(d: Dialect, was: World, wasLeft: Option<Ports>, w: World, left: Option<Ports>, drifted: bool)
    requires Settled(d, was, wasLeft, drifted) && SnippetKnown(d, w, left)
    requires w.ports == was.ports && w.loaded == was.loaded && (w.up ==> was.up)
    ensures Settled(d, w, left, drifted)
  {
  }

  // ---- How the environment's answers decide a call ---------------------------------------

  /** Every directory can be made, when the first attempt is number n. */
  predicate DirsWork(s: Script, n: nat) {
    forall j | n <= j <= n + |LEAF_DIRS| :: s.dirs(j)
  }

  /** The attempts to make the parent and the first k leaf directories. */
  function DirAttempts(s: Script, root: string, n: nat, k: nat): seq<DirAttempt>
    requires k <= |LEAF_DIRS|
  {
    if k == 0 then [DirAttempt(root, s.dirs(n))]
    else DirAttempts(s, root, n, k - 1) + [DirAttempt(root + LEAF_DIRS[k - 1], s.dirs(n + k))]
  }

  /** Which directories these are. */
  lemma AllSixDirs(s: Script, root: string, n: nat)
    ensures DirAttempts(s, root, n, |LEAF_DIRS|)
            == [DirAttempt(root, s.dirs(n)), DirAttempt(root + "/client_body", s.dirs(n + 1)),
                DirAttempt(root + "/proxy", s.dirs(n + 2)), DirAttempt(root + "/fastcgi", s.dirs(n + 3)),
                DirAttempt(root + "/uwsgi", s.dirs(n + 4)), DirAttempt(root + "/scgi", s.dirs(n + 5))]
  {
    assert DirAttempts(s, root, n, 1)
           == [DirAttempt(root, s.dirs(n)), DirAttempt(root + "/client_body", s.dirs(n + 1))];
    assert DirAttempts(s, root, n, 3)
           == DirAttempts(s, root, n, 1)
              + [DirAttempt(root + "/proxy", s.dirs(n + 2)), DirAttempt(root + "/fastcgi", s.dirs(n + 3))];
  }

  /** A write, a test and a start, from action n on, and the directories before them. */
  predicate StartWorks(s: Script, n: nat, dirs: nat) {
    DirsWork(s, dirs) && s.acts(n) && s.acts(n + 1) && s.acts(n + 2)
  }

  /** A look, a test and a reload, from action n on. */
  predicate ReloadWorks(s: Script, up: bool, n: nat) {
    up && s.acts(n) && s.acts(n + 1) && s.acts(n + 2)
  }

  /** How many actions a reload from action n on takes. */
  function ReloadLength(s: Script, up: bool, n: nat): nat {
    if !up || !s.acts(n) then 1 else if !s.acts(n + 1) then 2 else 3
  }

  /** Stopping a running server, from action n on: it is seen to have gone already, or
      the quit is accepted and it goes in time. */
  predicate StopWorks(s: Script, n: nat) {
    s.acts(n) ==> s.acts(n + 1) && GoesDown(s, n + 2)
  }

  function StoppedAfter(s: Script, n: nat): nat {
    if s.acts(n) then DownAfter(s, n + 2) else n + 3
  }

  /** A restart, from action n on: stop if seen running, then start. */
  predicate ResetWorks(s: Script, up: bool, n: nat, dirs: nat) {
    if up && s.acts(n) then StopWorks(s, n + 1) && StartWorks(s, StoppedAfter(s, n + 1) + 1, dirs)
    else StartWorks(s, n + 2, dirs)
  }

  /** A port change from action n on, which is the setting of the options: a write,
      a look, and, if the server is seen up, a reload. */
  predicate ChangeWorks(s: Script, up: bool, n: nat) {
    s.acts(n + 1) && (up && s.acts(n + 2) ==> ReloadWorks(s, true, n + 3))
  }

  /** The position of the rollback write, when the server is seen up at n and then
      fails to reload. */
  function RollbackAt(s: Script, n: nat): nat {
    n + 2 + ReloadLength(s, true, n + 1)
  }

  class NginxController {
    const host: Host
    const tempRoot: string
    const httpsEnabled: bool
    var httpPort: Port
    var httpsPort: Port
    var lastError: string
    /** The ports a lost rollback left in the snippet, and whether the server has
        drifted: what the record says, kept at hand. */
    ghost var left: Option<Ports>
    ghost var drifted: bool

    ghost function Options(): Ports
      reads this`httpPort, this`httpsPort
    {
      Ports(httpPort, httpsPort)
    }

    ghost function Rendering(): string
      reads this`httpPort, this`httpsPort
    {
      Render(Nginx(httpsEnabled), Options())
    }

    /** The record is possible and disciplined, also in the middle of a call. */
    ghost predicate Sound()
      reads this`httpPort, this`httpsPort, this`left, this`drifted, host, host.disk
    {
      && host.Valid() && host.dialect == Nginx(httpsEnabled)
      && host.ports == Options() && host.launch == NoLaunch
      && Disciplined(host.dialect, host.first, host.trace)
      && left == Leftover(host.trace) && drifted == Drift(host.dialect, host.first, host.trace)
    }

    /** What every sequence of calls keeps: a sound record, and a server that serves
        the reported ports exactly when the record has not drifted. */
    ghost predicate Valid()
      reads this`httpPort, this`httpsPort, this`left, this`drifted, host, host.disk
    {
      Sound() && Settled(host.dialect, host.Now(), left, drifted)
    }

    /** What a sound record says about the fields, without looking into it. */
    lemma Fields()
      requires Sound()
      ensures host.dialect == Nginx(httpsEnabled) && host.ports == Options() && host.launch == NoLaunch
    {
    }

    /** What a valid controller's server serves, read off the text it has loaded. */
    lemma Serving()
      requires Valid() && host.up
      ensures host.loaded.Some?
      ensures ListensOn(Nginx(httpsEnabled), host.loaded.value, Options()) <==> !drifted
    {
      hide Render, ListensOn, Disciplined, Replay, AllPossible, Leftover, Drift;
    }

    constructor (httpsEnabled: bool, ports: Ports, tempRoot: string, snippet: Option<string>, script: Script)
      ensures Valid() && fresh(host) && fresh(host.disk)
      ensures Options() == ports && this.httpsEnabled == httpsEnabled && host.script == script
      ensures !host.up && host.trace == [] && host.dirs == [] && host.disk.fs.target == snippet
      ensures left == None && !drifted
    {
      host := new Host(Nginx(httpsEnabled), ports, snippet, script);
      this.tempRoot, this.httpsEnabled := tempRoot, httpsEnabled;
      httpPort, httpsPort, lastError := ports.http, ports.https, "";
      left, drifted := None, false;
    }

    /** Turns a child's exit into an exit code and, on failure, a message. */
    method Report(e: Exit) returns (code: int)
      modifies this`lastError
      ensures code == 0 <==> e.code == 0
      ensures code != 0 ==> lastError != ""
      ensures code == 0 ==> lastError == old(lastError)
    {
      if e.code < 0 {
        lastError := if e.error == "" then "nginx terminated abnormally" else e.error;
        return -1;
      }
      if e.code != 0 {
        lastError := if e.output == "" then "nginx exited with code " + Codec.ToDecimal(e.code) else e.output;
      }
      return e.code;
    }

    method IsRunning() returns (running: bool)
      requires Sound()
      modifies host`up, host`loaded, host`launch, host`trace, host`acted
      ensures Sound()
      ensures host.trace == old(host.trace) + [Observed(running)]
      ensures running == (old(host.up) && host.script.acts(|old(host.trace)|))
      ensures host.Now() == old(host.Now()).(up := running)
    {
      hide Replay, AllPossible, Render, Disciplined, Leftover, Drift, Settled, ServesReported;
      ghost var before := host.trace;
      running := host.IsRunning();
      Recorded(host.dialect, host.first, before, Observed(running));
    }

    method EnsureDir(path: string) returns (ok: bool)
      requires Sound()
      modifies host`dirs, host`dirsTried
      ensures Sound() && ok == host.script.dirs(|old(host.dirs)|)
      ensures host.dirs == old(host.dirs) + [DirAttempt(path, ok)]
    {
      hide Replay, AllPossible, Render, Disciplined, Leftover, Drift;
      ok := host.EnsureDir(path);
    }

    /** Tries every directory, whatever becomes of the others. */
    method EnsureDirs() returns (ok: bool)
      requires Sound()
      modifies this`lastError, host`dirs, host`dirsTried
      ensures Sound()
      ensures ok == DirsWork(host.script, |old(host.dirs)|)
      ensures host.dirs == old(host.dirs) + DirAttempts(host.script, tempRoot, |old(host.dirs)|, |LEAF_DIRS|)
      ensures if ok then lastError == old(lastError) else lastError != ""
    {
      hide Sound;
      ok := EnsureDir(tempRoot);
      var i := 0;
      while i < |LEAF_DIRS|
        invariant 0 <= i <= |LEAF_DIRS| && Sound() && lastError == old(lastError)
        invariant |host.dirs| == |old(host.dirs)| + 1 + i
        invariant ok == forall j | |old(host.dirs)| <= j <= |old(host.dirs)| + i :: host.script.dirs(j)
        invariant host.dirs == old(host.dirs) + DirAttempts(host.script, tempRoot, |old(host.dirs)|, i)
      {
        var made := EnsureDir(tempRoot + LEAF_DIRS[i]);
        ok := made && ok;
        i := i + 1;
      }
      if !ok {
        lastError := "cannot create temp dirs under " + tempRoot;
      }
    }

    /** Writes the rendering of the options; tried is what the write rolls back, if
        anything, for the record. */
    method WriteListenSnippet(ghost tried: Option<Ports>) returns (ok: bool)
      requires Sound()
      requires tried.Some? ==> host.disk.fs.target == Some(Render(host.dialect, tried.value))
      modifies this`lastError, this`left, host`trace, host`acted, host.disk
      ensures Sound()
      ensures host.trace == old(host.trace) + [WriteAction(tried, Rendering(), ok)]
      ensures ok == host.script.acts(|old(host.trace)|)
      ensures host.Now() == if ok then old(host.Now()).(snippet := Some(Rendering())) else old(host.Now())
      ensures left == if ok then None else if tried.Some? then tried else old(left)
      ensures ok ==> ListensOn(Nginx(httpsEnabled), host.disk.fs.target.value, Options())
      ensures if ok then lastError == old(lastError) else lastError != ""
    {
      RenderIsRead(Nginx(httpsEnabled), Options());
      hide ListensOn;
      var text := Render(Nginx(httpsEnabled), Ports(httpPort, httpsPort));
      hide Replay, AllPossible, Render, Disciplined, Leftover, Drift, Settled, ServesReported;
      ghost var before := host.trace;
      var error;
      ok, error := host.WriteSnippet(text, tried);
      Recorded(host.dialect, host.first, before, WriteAction(tried, text, ok));
      left := if ok then None else if tried.Some? then tried else left;
      if !ok {
        lastError := error;
      }
    }

    method TestConfig() returns (ok: bool)
      requires Sound()
      modifies this`lastError, host`trace, host`acted
      ensures Sound() && host.Now() == old(host.Now())
      ensures host.trace == old(host.trace) + [Tested(host.disk.fs.target, ok)]
      ensures ok == host.script.acts(|old(host.trace)|)
      ensures !ok ==> lastError != ""
    {
      hide Replay, AllPossible, Render, Disciplined, Leftover, Drift, Settled, ServesReported;
      ghost var before := host.trace;
      var e := host.TestConfig();
      Recorded(host.dialect, host.first, before, Tested(host.disk.fs.target, e.code == 0));
      var code := Report(e);
      ok := code == 0;
    }

    /** The start command, on a snippet just written and tested while down. */
    method Launch() returns (ok: bool)
      requires Sound() && host.disk.fs.target == Some(Rendering())
      requires StartAllowed(host.trace, Some(Rendering()))
      modifies this`lastError, this`drifted, host`up, host`loaded, host`trace, host`acted
      ensures Sound()
      ensures host.trace == old(host.trace) + [Started(Some(Rendering()), ok)]
      ensures ok == host.script.acts(|old(host.trace)|)
      ensures host.Now() == if ok then old(host.Now()).(up := true, loaded := Some(Rendering())) else old(host.Now())
      ensures drifted == (!ok && old(drifted))
      ensures !ok ==> lastError != ""
    {
      hide Replay, AllPossible, Render, Disciplined, Leftover, Drift, Settled, ServesReported;
      ghost var before := host.trace;
      var e := host.Start();
      Recorded(host.dialect, host.first, before, Started(Some(Rendering()), e.code == 0));
      drifted := e.code != 0 && drifted;
      var code := Report(e);
      ok := code == 0;
      if !ok {
        lastError := "nginx failed to start (port in use? see stderr)";
      }
    }

    /** A fresh snippet that passes its test. */
    method WriteAndTest() returns (ok: bool)
      requires Valid() && !host.up
      modifies this`lastError, this`left, host`trace, host`acted, host.disk
      ensures Valid() && !host.up && (!ok ==> lastError != "")
      ensures ok == (host.script.acts(|old(host.trace)|) && host.script.acts(|old(host.trace)| + 1))
      ensures old(host.trace) <= host.trace
      ensures ok ==>
                && host.trace == old(host.trace) + [Wrote(Rendering(), true), Tested(Some(Rendering()), true)]
                && host.disk.fs.target == Some(Rendering()) && left == None
    {
      hide Replay, AllPossible, Render, Disciplined, Leftover, Drift, Settled, ServesReported, Sound;
      var wrote := WriteListenSnippet(None);
      if !wrote {
        return false;
      }
      Fields();
      DownSettles(host.dialect, host.Now(), left, drifted);
      ok := TestConfig();
    }

    /** The way up from stopped: make directories, write, test, start. */
    method StartStopped() returns (ok: bool)
      requires Valid() && !host.up && host.trace != [] && host.trace[|host.trace| - 1] == Observed(false)
      modifies this`lastError, this`left, this`drifted, host, host.disk
      ensures Valid()
      ensures ok == StartWorks(host.script, |old(host.trace)|, |old(host.dirs)|)
      ensures ok == host.up && (!ok ==> lastError != "")
      ensures old(host.trace) <= host.trace
      ensures ok ==>
                && host.trace == old(host.trace) + [Wrote(Rendering(), true), Tested(Some(Rendering()), true),
                                                    Started(Some(Rendering()), true)]
                && host.disk.fs.target == Some(Rendering()) && host.loaded == Some(Rendering())
                && left == None && !drifted
    {
      hide Replay, AllPossible, Render, Disciplined, Leftover, Drift, Settled, ServesReported, Sound,
        DirsWork, StartAllowed;
      var dirs := EnsureDirs();
      if !dirs {
        return false;
      }
      var prepared := WriteAndTest();
      if !prepared {
        return false;
      }
      Fields();
      LoadSettles(host.dialect, host.Now().(up := true), left);
      MayStart(old(host.trace), Rendering());
      ok := Launch();
    }

    /** Start unless running: observe, write, test, start. True means the server
        is up; false means it is down and the message says why. */
    method On() returns (ok: bool)
      requires Valid()
      modifies this`lastError, this`left, this`drifted, host, host.disk
      ensures Valid()
      ensures var n := |old(host.trace)|;
              ok == ((old(host.up) && host.script.acts(n)) || StartWorks(host.script, n + 1, |old(host.dirs)|))
      ensures ok == host.up && (!ok ==> lastError != "")
      ensures old(host.trace) < host.trace
      ensures old(host.up) && host.script.acts(|old(host.trace)|) ==>
                && host.trace == old(host.trace) + [Observed(true)] && host.Now() == old(host.Now())
                && left == old(left) && drifted == old(drifted)
      ensures ok && !(old(host.up) && host.script.acts(|old(host.trace)|)) ==>
                && host.trace == old(host.trace) + [Observed(false), Wrote(Rendering(), true),
                                                    Tested(Some(Rendering()), true), Started(Some(Rendering()), true)]
                && host.disk.fs.target == Some(Rendering()) && host.loaded == Some(Rendering())
                && left == None && !drifted
      ensures ok ==> (ListensOn(Nginx(httpsEnabled), host.loaded.value, Options()) <==> !drifted)
    {
      hide Replay, AllPossible, Render, Disciplined, Leftover, Drift, Settled, ServesReported, Sound, StartWorks,
        ListensOn;
      SeenDown(host.dialect, host.Now(), left, drifted);
      var running := IsRunning();
      if running {
        Serving();
        return true;
      }
      ok := StartStopped();
      if ok {
        Serving();
      }
    }

    /** Asks a running server to go; no-op when it is not running. */
    method Off() returns (ok: bool)
      requires Sound()
      modifies this`lastError, host`up, host`loaded, host`launch, host`trace, host`acted
      ensures Sound() && (old(Valid()) ==> Valid())
      ensures var n := |old(host.trace)|;
              var running := old(host.up) && host.script.acts(n);
              && host.Now() == old(host.Now()).(up := running)
              && ok == (running ==> host.script.acts(n + 1))
              && host.trace == old(host.trace) + if running then [Observed(true), Signalled(ok)] else [Observed(false)]
      ensures !ok ==> lastError != ""
    {
      hide Replay, AllPossible, Render, Disciplined, Leftover, Drift, Settled, ServesReported;
      if Settled(host.dialect, host.Now(), left, drifted) {
        SeenDown(host.dialect, host.Now(), left, drifted);
      }
      var running := IsRunning();
      if !running {
        return true;
      }
      ghost var before := host.trace;
      var e := host.Quit();
      Recorded(host.dialect, host.first, before, Signalled(e.code == 0));
      var code := Report(e);
      ok := code == 0;
    }

    /** The reload command, on a snippet just tested while up. Here, and only here,
        the server drifts: when it loads what a lost rollback left behind. */
    method LoadSnippet() returns (ok: bool)
      requires Sound() && host.up && |host.trace| >= 2
      requires host.trace[|host.trace| - 2] == Observed(true)
      requires host.trace[|host.trace| - 1] == Tested(host.disk.fs.target, true)
      modifies this`lastError, this`drifted, host`loaded, host`trace, host`acted
      ensures Sound()
      ensures host.trace == old(host.trace) + [Reloaded(host.disk.fs.target, ok)]
      ensures ok == host.script.acts(|old(host.trace)|)
      ensures host.Now() == if ok then old(host.Now()).(loaded := host.disk.fs.target) else old(host.Now())
      ensures drifted == if ok then left.Some? && !SamePorts(host.dialect, left.value, Options()) else old(drifted)
      ensures !ok ==> lastError != ""
    {
      hide Replay, AllPossible, Render, Disciplined, Leftover, Drift, SamePorts;
      ghost var before := host.trace;
      var e := host.Reload();
      Recorded(host.dialect, host.first, before, Reloaded(host.disk.fs.target, e.code == 0));
      if e.code == 0 {
        drifted := left.Some? && !SamePorts(host.dialect, left.value, Options());
      }
      var code := Report(e);
      ok := code == 0;
    }

    /** Test, then make a running server load the snippet as it is. */
    method Reload() returns (ok: bool)
      requires Sound()
      modifies this`lastError, this`drifted, host`up, host`loaded, host`launch, host`trace, host`acted
      ensures Sound()
      ensures old(Valid()) || (ok && old(SnippetKnown(host.dialect, host.Now(), left))) ==> Valid()
      ensures var n := |old(host.trace)|;
              && ok == ReloadWorks(host.script, old(host.up), n)
              && |host.trace| == n + ReloadLength(host.script, old(host.up), n)
              && host.up == (old(host.up) && host.script.acts(n))
      ensures old(host.trace) <= host.trace
      ensures if ok then host.loaded == host.disk.fs.target else host.loaded == old(host.loaded)
      ensures drifted == if ok then left.Some? && !SamePorts(host.dialect, left.value, Options()) else old(drifted)
      ensures ok ==> host.trace == old(host.trace) + [Observed(true), Tested(host.disk.fs.target, true),
                                                      Reloaded(host.disk.fs.target, true)]
      ensures !ok ==> lastError != ""
    {
      hide Replay, AllPossible, Render, Disciplined, Leftover, Drift, SamePorts, Settled, SnippetKnown, ServesReported;
      ghost var d, was := host.dialect, host.Now();
      var running := IsRunning();
      if Settled(d, was, left, drifted) {
        SeenDown(d, was, left, drifted);
      }
      if !running {
        lastError := "nginx is not running";
        return false;
      }
      var tested := TestConfig();
      if !tested {
        return false;
      }
      if SnippetKnown(d, was, left) {
        LoadSettles(d, was, left);
      }
      ok := LoadSnippet();
    }

    /** The wait for the server to go: up to 50 polls, and a final look. */
    method WaitDown() returns (ok: bool)
      requires Valid()
      modifies host`up, host`loaded, host`launch, host`trace, host`acted
      ensures Valid() && ok == !host.up && old(host.trace) < host.trace
      ensures ok == (old(host.up) ==> GoesDown(host.script, |old(host.trace)|))
      ensures ok ==> |host.trace| == if old(host.up) then DownAfter(host.script, |old(host.trace)|)
                                     else |old(host.trace)| + 2
    {
      hide Replay, AllPossible, Render, Disciplined, Leftover, Drift, Settled, ServesReported, Sound,
        GoesDown, DownAfter;
      ghost var n := |host.trace|;
      var i := 0;
      while i < STOP_POLLS
        invariant 0 <= i <= STOP_POLLS && Valid()
        invariant old(host.trace) <= host.trace && |host.trace| == n + i
        invariant host.up == old(host.up) && (i > 0 ==> host.up)
        invariant forall j | n <= j < n + i :: host.script.acts(j)
      {
        SeenDown(host.dialect, host.Now(), left, drifted);
        var still := IsRunning();
        if !still {
          break;
        }
        i := i + 1;
      }
      if old(host.up) {
        DownOnce(host.script, n, i);
      }
      SeenDown(host.dialect, host.Now(), left, drifted);
      var still := IsRunning();
      ok := !still;
    }

    /** Quit, and wait until the server is seen down. */
    method StopAndWait() returns (ok: bool)
      requires Valid() && host.up
      modifies this`lastError, host`up, host`loaded, host`launch, host`trace, host`acted
      ensures Valid() && (ok ==> !host.up) && (!ok ==> lastError != "")
      ensures old(host.trace) < host.trace
      ensures ok == StopWorks(host.script, |old(host.trace)|)
      ensures ok ==> |host.trace| == StoppedAfter(host.script, |old(host.trace)|)
    {
      hide Replay, AllPossible, Render, Disciplined, Leftover, Drift, Settled, ServesReported, Sound,
        GoesDown, DownAfter;
      var stopping := Off();
      if !stopping {
        return false;
      }
      ok := WaitDown();
      if !ok {
        lastError := "nginx did not stop within timeout";
      }
    }

    /** Stop, wait until seen down, start. A restart of a server that was running
        starts the new one only after the old was observed down. */
    method Reset() returns (ok: bool)
      requires Valid()
      modifies this`lastError, this`left, this`drifted, host, host.disk
      ensures Valid() && (!ok ==> lastError != "")
      ensures old(host.trace) < host.trace
      ensures ok == ResetWorks(host.script, old(host.up), |old(host.trace)|, |old(host.dirs)|)
      ensures ok ==> host.loaded.Some? && ListensOn(Nginx(httpsEnabled), host.loaded.value, Options())
      ensures ok ==>
                var n := |host.trace|;
                && host.up && host.loaded == Some(Rendering()) && left == None && !drifted
                && n >= |old(host.trace)| + 4
                && host.trace[n - 4..] == [Observed(false), Wrote(Rendering(), true),
                                           Tested(Some(Rendering()), true), Started(Some(Rendering()), true)]
    {
      hide Replay, AllPossible, Render, Disciplined, Leftover, Drift, Settled, ServesReported, Sound, StopWorks,
        StoppedAfter, StartWorks, ListensOn;
      SeenDown(host.dialect, host.Now(), left, drifted);
      var running := IsRunning();
      if running {
        var stopped := StopAndWait();
        if !stopped {
          return false;
        }
      }
      ok := On();
      if ok {
        Serving();
      }
    }

    /** The option fields take new values. */
    method AssignPorts(http: Port, https: Port)
      requires Sound()
      modifies this`httpPort, this`httpsPort, host`ports, host`trace, host`acted
      ensures Sound() && Options() == Ports(http, https)
      ensures host.trace == old(host.trace) + [Configured(Options())]
      ensures host.Now() == old(host.Now()).(ports := Options())
    {
      hide Replay, AllPossible, Render, Disciplined, Leftover, Drift, Settled, ServesReported;
      Recorded(host.dialect, host.first, host.trace, Configured(Ports(http, https)));
      httpPort, httpsPort := http, https;
      host.Configure(Ports(http, https));
    }

    /** Takes a change back: the old ports, and the snippet written with them. */
    method RollBack(ghost tried: Ports, prev: Ports) returns (ok: bool)
      requires Sound() && left == None && host.disk.fs.target == Some(Render(host.dialect, tried))
      modifies this`lastError, this`httpPort, this`httpsPort, this`left, host`ports, host`trace, host`acted, host.disk
      ensures Sound() && Options() == prev
      ensures host.trace == old(host.trace) + [Configured(prev), RolledBack(tried, Rendering(), ok)]
      ensures ok == host.script.acts(|old(host.trace)| + 1)
      ensures left == if ok then None else Some(tried)
      ensures SnippetKnown(host.dialect, host.Now(), left)
      ensures if ok then lastError == old(lastError) else lastError != ""
      ensures var text := Render(host.dialect, if ok then prev else tried);
              host.Now() == old(host.Now()).(ports := prev, snippet := Some(text))
    {
      hide Replay, AllPossible, Render, Disciplined, Leftover, Drift, Settled, ServesReported;
      AssignPorts(prev.http, prev.https);
      ok := WriteListenSnippet(Some(tried));
      assert host.trace == old(host.trace) + [Configured(prev), RolledBack(tried, Rendering(), ok)];
    }

    /** The second half of a port change, after the new ports are in the snippet: a
        running server reloads, and if it does not, the old ports, which are those of
        the state `was`, are put back. */
    method Apply(prev: Ports, ghost was: World, ghost wasLeft: Option<Ports>) returns (ok: bool)
      requires Sound() && left == None && host.disk.fs.target == Some(Rendering())
      requires Settled(host.dialect, was, wasLeft, drifted)
      requires was.ports == prev && was.up == host.up && was.loaded == host.loaded
      modifies this`lastError, this`httpPort, this`httpsPort, this`left, this`drifted, host, host.disk
      ensures Valid() && old(host.trace) < host.trace && (!ok ==> lastError != "")
      ensures Options() == if ok then old(Options()) else prev
      ensures ok ==> host.disk.fs.target == Some(Rendering()) && left == None
      ensures ok && host.up ==> host.loaded == Some(Rendering()) && !drifted
      ensures !ok ==> host.loaded == old(host.loaded) && drifted == old(drifted)
      ensures var s, n := host.script, |old(host.trace)|;
              && ok == (old(host.up) && s.acts(n) ==> ReloadWorks(s, true, n + 1))
              && host.up == (old(host.up) && s.acts(n) && s.acts(n + 1))
      ensures !ok ==>
                var s, m := host.script, RollbackAt(host.script, |old(host.trace)|);
                var tried, back := old(Options()), s.acts(m);
                && |host.trace| == m + 1
                && host.trace[m - 1..] == [Configured(prev), RolledBack(tried, Rendering(), back)]
                && host.disk.fs.target == Some(Render(host.dialect, if back then prev else tried))
                && left == if back then None else Some(tried)
    {
      hide Replay, AllPossible, Render, Disciplined, Leftover, Drift, Settled, ServesReported, Sound,
        SamePorts, ReloadWorks, ReloadLength;
      Fields();
      var running := IsRunning();
      if !running {
        DownSettles(host.dialect, host.Now(), left, drifted);
        return true;
      }
      ok := Reload();
      if !ok {
        Fields();
        var _ := RollBack(old(Options()), prev);
        Fields();
        BackSettles(host.dialect, was, wasLeft, host.Now(), left, drifted);
      }
    }

    method SetListenPort(http: Port) returns (ok: bool)
      requires Valid()
      modifies this, host, host.disk
      ensures Valid() && old(host.trace) < host.trace && (!ok ==> lastError != "")
      ensures Options() == if ok then Ports(http, old(httpsPort)) else old(Options())
      ensures ok ==> host.disk.fs.target == Some(Rendering()) && left == None
      ensures ok && host.up ==> host.loaded == Some(Rendering())
      ensures !ok ==> host.loaded == old(host.loaded)
    {
      ok := SetListenPorts(http, httpsPort);
    }

    /** A transactional port change: true means the new ports are reported, written
        and, if the server is up, served; false means the old ports are reported,
        what the server serves is as it was, and the snippet is untouched, or rolled
        back, or the rollback is lost. Which of these it is, the answers of the
        environment decide as stated. */
    method SetListenPorts(http: Port, https: Port) returns (ok: bool)
      requires Valid()
      modifies this, host, host.disk
      ensures Valid() && old(host.trace) < host.trace && (!ok ==> lastError != "")
      ensures Options() == if ok then Ports(http, https) else old(Options())
      ensures ok ==> host.disk.fs.target == Some(Rendering()) && left == None
      ensures ok && host.up ==> host.loaded == Some(Rendering()) && !drifted
      ensures host.up ==> host.loaded.Some?
                          && (ListensOn(Nginx(httpsEnabled), host.loaded.value, Options()) <==> !drifted)
      ensures !ok ==> host.loaded == old(host.loaded) && drifted == old(drifted)
      ensures var s, n := host.script, |old(host.trace)|;
              && ok == ChangeWorks(s, old(host.up), n)
              && host.up == (old(host.up) && (s.acts(n + 1) ==> s.acts(n + 2) && s.acts(n + 3)))
      ensures !ok ==>
                var new_, prev, d := Ports(http, https), old(Options()), Nginx(httpsEnabled);
                var s, n := host.script, |old(host.trace)|;
                if !s.acts(n + 1) then
                  && host.trace == old(host.trace) + [Configured(new_), Wrote(Render(d, new_), false), Configured(prev)]
                  && host.disk.fs.target == old(host.disk.fs.target) && left == old(left)
                else
                  var m := RollbackAt(s, n + 2);
                  var back := s.acts(m);
                  && |host.trace| == m + 1
                  && host.trace[m - 1..] == [Configured(prev), RolledBack(new_, Render(d, prev), back)]
                  && host.disk.fs.target == Some(Render(d, if back then prev else new_))
                  && left == if back then None else Some(new_)
    {
      hide Replay, AllPossible, Render, Disciplined, Leftover, Drift, Settled, ServesReported, Sound,
        ReloadWorks, ReloadLength, ListensOn;
      Fields();
      ghost var was, wasLeft := host.Now(), left;
      var prevHttp, prevHttps := httpPort, httpsPort;
      AssignPorts(http, https);
      var wrote := WriteListenSnippet(None);
      if !wrote {
        AssignPorts(prevHttp, prevHttps);
        assert host.Now() == was;
        if host.up {
          Serving();
        }
        return false;
      }
      Fields();
      ok := Apply(Ports(prevHttp, prevHttps), was, wasLeft);
      if host.up {
        Serving();
      }
    }

    /** Any sequence of calls, with any outcomes: the reported ports are the last
        accepted pair, and a server that is up serves exactly those, unless it has
        drifted; while it is up the snippet holds the reported ports, or those of a
        lost rollback. Drift and leftover are read off the record. */
    method Drive(calls: seq<Call>) returns (results: seq<bool>)
      requires Valid()
      modifies this, host, host.disk
      ensures Valid() && |results| == |calls|
      ensures Options() == LastAccepted(old(Options()), calls, results)
      ensures old(host.trace) <= host.trace && Disciplined(host.dialect, host.first, host.trace)
      ensures host.up ==>
                && (ServesReported(host.dialect, host.Now()) <==> !Drift(host.dialect, host.first, host.trace))
                && host.loaded.Some?
                && (ListensOn(Nginx(httpsEnabled), host.loaded.value, Options())
                    <==> !Drift(host.dialect, host.first, host.trace))
                && SnippetKnown(host.dialect, host.Now(), Leftover(host.trace))
    {
      hide Replay, AllPossible, Render, Disciplined, Leftover, Drift, SnippetKnown, ListensOn;
      results := [];
      var i := 0;
      while i < |calls|
        invariant 0 <= i <= |calls| && |results| == i && Valid()
        invariant Options() == LastAccepted(old(Options()), calls[..i], results)
        invariant old(host.trace) <= host.trace
      {
        var ok;
        match calls[i] {
          case TurnOn => ok := On();
          case TurnOff => ok := Off();
          case Restart => ok := Reset();
          case ReloadConfig => ok := Reload();
          case SetPorts(ports) => ok := SetListenPorts(ports.http, ports.https);
        }
        AcceptOne(old(Options()), calls[..i], results, calls[i], ok);
        assert calls[..i + 1] == calls[..i] + [calls[i]];
        results := results + [ok];
        i := i + 1;
      }
      assert calls[..i] == calls;
      if host.up {
        Serving();
      }
    }
  }

  /** Fails at the test of the reload, with the rollback written or lost: the server
      goes on serving what it did. */
  method FailChange(c: NginxController, next: Ports) returns (ok: bool)
    requires c.Valid() && c.host.up
    requires var s, n := c.host.script, |c.host.trace|;
             s.acts(n + 1) && s.acts(n + 2) && s.acts(n + 3) && !s.acts(n + 4)
    modifies c, c.host, c.host.disk
    ensures c.Valid() && !ok && c.host.up && |c.host.trace| == |old(c.host.trace)| + 7
    ensures c.Options() == old(c.Options()) && c.host.loaded == old(c.host.loaded) && c.drifted == old(c.drifted)
    ensures c.left == if c.host.script.acts(|old(c.host.trace)| + 6) then None else Some(next)
    ensures c.left == None ==> c.host.disk.fs.target == Some(c.Rendering())
    ensures c.left != None ==> c.host.disk.fs.target == Some(Render(Nginx(c.httpsEnabled), next))
  {
    hide Replay, AllPossible, Render, Disciplined, Leftover, Drift, NginxController.Sound, Settled, ServesReported;
    ok := c.SetListenPorts(next.http, next.https);
  }

  /** One way to drift: a start, a change that fails its test and loses its rollback,
      and a reload, which loads what is left over. */
  method DriftAway(httpsEnabled: bool, one: Ports, two: Ports, tempRoot: string, script: Script)
    returns (c: NginxController, results: seq<bool>)
    requires one.http != two.http && StartWorks(script, 1, 0)
    requires script.acts(5) && script.acts(6) && script.acts(7) && !script.acts(8) && !script.acts(10)
    requires script.acts(11) && script.acts(12) && script.acts(13)
    ensures fresh(c) && fresh(c.host) && fresh(c.host.disk) && c.host.script == script
    ensures c.Valid() && results == [true, false, true] && |c.host.trace| == 14 && c.httpsEnabled == httpsEnabled
    ensures c.Options() == one && c.drifted && c.host.up && c.host.loaded == Some(Render(Nginx(httpsEnabled), two))
  {
    hide Replay, AllPossible, Render, Disciplined, Leftover, Drift, NginxController.Sound, Settled, ServesReported,
      DirsWork;
    c := new NginxController(httpsEnabled, one, tempRoot, None, script);
    var r0 := c.On();
    assert r0 && |c.host.trace| == 4;
    var r1 := FailChange(c, two);
    c.Fields();
    var r2 := c.Reload();
    results := [r0, r1, r2];
  }

  /** It is not true that a server disagrees with the options only until the next
      successful write after a lost rollback. Here every answer of the environment is
      good but three: the test of the second call, its rollback write, and the test of
      the fourth call, whose rollback succeeds. The reload in between loads what was
      left over. In the end the snippet is the rendering of the options, nothing is
      left over, and the server, up all the while, serves other ports. */
  method NextWriteDoesNotEndDrift(httpsEnabled: bool, one: Ports, two: Ports, three: Ports, tempRoot: string)
    returns (c: NginxController, results: seq<bool>)
    requires one.http != two.http
    ensures c.Valid() && results == [true, false, true, false]
    ensures c.Options() == one && c.left == None && c.host.disk.fs.target == Some(c.Rendering())
    ensures c.host.up && c.host.loaded == Some(Render(Nginx(httpsEnabled), two)) && c.drifted
    ensures !ServesReported(c.host.dialect, c.host.Now())
  {
    hide Replay, AllPossible, Render, Disciplined, Leftover, Drift, NginxController.Sound, ServesReported;
    var script := Script(n => n != 8 && n != 10 && n != 18, n => true, n => 1);
    c, results := DriftAway(httpsEnabled, one, two, tempRoot, script);
    var last := FailChange(c, three);
    results := results + [last];
  }
}
