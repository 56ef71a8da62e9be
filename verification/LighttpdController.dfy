/** Starting, stopping, restarting and re-porting lighttpd. */
module LighttpdControllers {
  import opened Basics
  import opened ListenSnippet
  import opened ServerHost
  import Codec

  const START_POLLS := 30
  const STOP_POLLS := 50

  // ---- How the environment's answers decide a call ---------------------------------------

  /** A launch and the wait for the daemon, from action n on. */
  predicate LaunchWorks(s: Script, n: nat) {
    s.acts(n) && s.acts(LastLook(s, n + 1))
  }

  /** A write, a test and a launch, from action n on, and the directory before them. */
  predicate StartWorks(s: Script, n: nat, dirs: nat) {
    s.dirs(dirs) && s.acts(n) && s.acts(n + 1) && LaunchWorks(s, n + 2)
  }

  /** The action after a look at n, and the signal if there is a pid to send it to. */
  function AfterSignal(s: Script, n: nat): nat {
    if s.pids(n + 1) <= 0 then n + 1 else n + 2
  }

  /** Stopping a running server, from action n on. */
  predicate StopWorks(s: Script, n: nat) {
    s.acts(n) ==> (s.pids(n + 1) > 0 ==> s.acts(n + 1)) && GoesDown(s, AfterSignal(s, n))
  }

  function StoppedAfter(s: Script, n: nat): nat {
    if s.acts(n) then DownAfter(s, AfterSignal(s, n)) else n + 3
  }

  /** A restart, from action n on: stop if seen running, then start. */
  predicate ResetWorks(s: Script, up: bool, n: nat, dirs: nat) {
    if up && s.acts(n) then StopWorks(s, n + 1) && StartWorks(s, StoppedAfter(s, n + 1) + 1, dirs)
    else StartWorks(s, n + 2, dirs)
  }

  /** A look, a test and a restart, from action n on. */
  predicate ReloadWorks(s: Script, up: bool, n: nat, dirs: nat) {
    up && s.acts(n) && s.acts(n + 1) && ResetWorks(s, true, n + 2, dirs)
  }

  /** A port change from action n on, which is the setting of the options: a write,
      a look, and, if the server is seen up, a reload. */
  predicate ChangeWorks(s: Script, up: bool, n: nat, dirs: nat) {
    s.acts(n + 1) && (up && s.acts(n + 2) ==> ReloadWorks(s, true, n + 3, dirs))
  }

  class LighttpdController {
    const host: Host
    const tempRoot: string
    const httpsEnabled: bool
    const sslPemfile: string
    var httpPort: Port
    var httpsPort: Port
    var lastError: string

    ghost function Options(): Ports
      reads this`httpPort, this`httpsPort
    {
      Ports(httpPort, httpsPort)
    }

    ghost function Rendering(): string
      reads this`httpPort, this`httpsPort
    {
      Render(Lighttpd(httpsEnabled, sslPemfile), Options())
    }

    /** The record is possible and disciplined, also in the middle of a call. */
    ghost predicate Sound()
      reads this`httpPort, this`httpsPort, host, host.disk
    {
      && host.Valid() && host.dialect == Lighttpd(httpsEnabled, sslPemfile)
      && host.ports == Options() && host.launch == NoLaunch
      && Disciplined(host.dialect, host.first, host.trace)
    }

    /** What every sequence of calls keeps: a server that is up serves the ports in
        the options. Every start follows a fresh write, so even a lost rollback
        does not break this. */
    ghost predicate Valid()
      reads this`httpPort, this`httpsPort, host, host.disk
    {
      Sound() && LoadsReported(host.dialect, host.Now())
    }

    /** What a sound record says about the fields, without looking into it. */
    lemma Fields()
      requires Sound()
      ensures host.dialect == Lighttpd(httpsEnabled, sslPemfile) && host.ports == Options() && host.launch == NoLaunch
    {
    }

    constructor (httpsEnabled: bool, sslPemfile: string, ports: Ports, tempRoot: string, snippet: Option<string>,
                 script: Script)
      ensures Valid() && fresh(host) && fresh(host.disk)
      ensures Options() == ports && this.httpsEnabled == httpsEnabled && this.sslPemfile == sslPemfile
      ensures host.script == script
      ensures !host.up && host.trace == [] && host.disk.fs.target == snippet
    {
      host := new Host(Lighttpd(httpsEnabled, sslPemfile), ports, snippet, script);
      this.tempRoot, this.httpsEnabled, this.sslPemfile := tempRoot, httpsEnabled, sslPemfile;
      httpPort, httpsPort, lastError := ports.http, ports.https, "";
    }

    /** Turns a child's exit into an exit code and, on failure, a message. */
    method Report(e: Exit) returns (code: int)
      modifies this`lastError
      ensures code == 0 <==> e.code == 0
      ensures code != 0 ==> lastError != ""
      ensures code == 0 ==> lastError == old(lastError)
    {
      if e.code < 0 {
        lastError := if e.error == "" then "lighttpd terminated abnormally" else e.error;
        return -1;
      }
      if e.code != 0 {
        lastError := if e.output == "" then "lighttpd exited with code " + Codec.ToDecimal(e.code) else e.output;
      }
      return e.code;
    }

    method IsRunning() returns (running: bool)
      requires Sound()
      modifies host`up, host`loaded, host`launch, host`trace, host`acted
      ensures Sound()
      ensures host.trace == old(host.trace) + [Observed(running)]
      ensures running == (old(host.up) && host.script.acts(|old(host.trace)|))
      ensures running == host.up && (running ==> old(host.up)) && host.loaded == old(host.loaded)
    {
      hide Replay, AllPossible, Render, Disciplined;
      ghost var before := host.trace;
      running := host.IsRunning();
      DisciplinedOne(host.dialect, host.first, before, Observed(running));
    }

    /** Writes the rendering of the options; tried is what the write rolls back, if
        anything, for the record. */
    method WriteListenSnippet(ghost tried: Option<Ports>) returns (ok: bool)
      requires Sound()
      requires tried.Some? ==> host.disk.fs.target == Some(Render(host.dialect, tried.value))
      modifies this`lastError, host`trace, host`acted, host.disk
      ensures Sound()
      ensures host.trace == old(host.trace) + [WriteAction(tried, Rendering(), ok)]
      ensures ok == host.script.acts(|old(host.trace)|)
      ensures host.Now() == if ok then old(host.Now()).(snippet := Some(Rendering())) else old(host.Now())
      ensures ok ==> ListensOn(Lighttpd(httpsEnabled, sslPemfile), host.disk.fs.target.value, Options())
      ensures if ok then lastError == old(lastError) else lastError != ""
    {
      RenderIsRead(Lighttpd(httpsEnabled, sslPemfile), Options());
      hide ListensOn;
      var text := Render(Lighttpd(httpsEnabled, sslPemfile), Ports(httpPort, httpsPort));
      hide Replay, AllPossible, Render, Disciplined;
      ghost var before := host.trace;
      var error;
      ok, error := host.WriteSnippet(text, tried);
      DisciplinedOne(host.dialect, host.first, before, WriteAction(tried, text, ok));
      if !ok {
        lastError := error;
      }
    }

    method TestConfig() returns (ok: bool)
      requires Sound()
      modifies this`lastError, host`trace, host`acted
      ensures Sound() && host.Now() == old(host.Now())
      ensures host.trace == old(host.trace) + [Tested(host.disk.fs.target, ok)]
      ensures ok == host.script.acts(|old(host.trace)|)
      ensures !ok ==> lastError != ""
    {
      hide Replay, AllPossible, Render, Disciplined;
      ghost var before := host.trace;
      var e := host.TestConfig();
      DisciplinedOne(host.dialect, host.first, before, Tested(host.disk.fs.target, e.code == 0));
      var code := Report(e);
      ok := code == 0;
    }

    /** One look at the process while a launch may be pending. */
    method Poll() returns (running: bool)
      requires host.Valid() && Disciplined(host.dialect, host.first, host.trace)
      modifies host`up, host`loaded, host`launch, host`trace, host`acted
      ensures host.Valid() && Disciplined(host.dialect, host.first, host.trace)
      ensures host.trace == old(host.trace) + [Observed(running)]
      ensures host.Now() == Effect(old(host.Now()), Observed(running))
      ensures running == ((old(host.up) || old(host.launch).Pending?) && host.script.acts(|old(host.trace)|))
      ensures Possible(old(host.Now()), Observed(running))
    {
      hide Replay, AllPossible, Render, Disciplined;
      ghost var before := host.trace;
      running := host.IsRunning();
      DisciplinedOne(host.dialect, host.first, before, Observed(running));
    }

    /** The wait for a daemon that was just launched. */
    method AwaitUp(ghost text: string) returns (ok: bool)
      requires host.Valid() && Disciplined(host.dialect, host.first, host.trace)
      requires !host.up && host.launch == Pending(Some(text), LAUNCH_WINDOW)
      modifies host`up, host`loaded, host`launch, host`trace, host`acted
      ensures host.Valid() && Disciplined(host.dialect, host.first, host.trace)
      ensures host.up == ok && host.launch == NoLaunch && host.ports == old(host.ports)
      ensures ok == host.script.acts(LastLook(host.script, |old(host.trace)|))
      ensures ok ==> host.loaded == Some(text)
      ensures old(host.trace) <= host.trace
      ensures forall k | |old(host.trace)| <= k < |host.trace| :: host.trace[k].Observed?
    {
      hide Replay, AllPossible, Disciplined, LastLook;
      ghost var n := |host.trace|;
      var i := 0;
      while i < START_POLLS
        invariant 0 <= i <= START_POLLS
        invariant host.Valid() && Disciplined(host.dialect, host.first, host.trace)
        invariant !host.up && host.launch == Pending(Some(text), LAUNCH_WINDOW - i) && host.ports == old(host.ports)
        invariant old(host.trace) <= host.trace && |host.trace| == n + i
        invariant forall j | n <= j < n + i :: !host.script.acts(j)
        invariant forall k | |old(host.trace)| <= k < |host.trace| :: host.trace[k].Observed?
      {
        var running := Poll();
        if running {
          break;
        }
        i := i + 1;
      }
      UpOnce(host.script, n, i);
      ok := Poll();
    }

    /** The start command alone: the parent forks the daemon and exits. */
    method LaunchDaemon() returns (ok: bool)
      requires Sound() && !host.up && host.disk.fs.target == Some(Rendering())
      requires StartAllowed(host.trace, Some(Rendering()))
      modifies this`lastError, host`launch, host`trace, host`acted
      ensures host.Valid() && Disciplined(host.dialect, host.first, host.trace)
      ensures host.trace == old(host.trace) + [Launched(Some(Rendering()), ok)]
      ensures ok == host.script.acts(|old(host.trace)|)
      ensures host.launch == if ok then Pending(Some(Rendering()), LAUNCH_WINDOW) else NoLaunch
    {
      hide Replay, AllPossible, Render, Disciplined;
      ghost var before := host.trace;
      var e := host.LaunchDaemon();
      DisciplinedOne(host.dialect, host.first, before, Launched(Some(Rendering()), e.code == 0));
      var code := Report(e);
      ok := code == 0;
    }

    /** The start command and the wait for the daemon: 30 polls and a final look.
        Either way no launch is left pending. */
    method Launch() returns (ok: bool)
      requires Sound() && !host.up && host.disk.fs.target == Some(Rendering())
      requires StartAllowed(host.trace, Some(Rendering()))
      modifies this`lastError, host`up, host`loaded, host`launch, host`trace, host`acted
      ensures Sound() && host.up == ok
      ensures ok == LaunchWorks(host.script, |old(host.trace)|)
      ensures ok ==> host.loaded == Some(Rendering())
      ensures !ok ==> lastError != ""
      ensures host.disk.fs == old(host.disk.fs)
      ensures old(host.trace) + [Launched(Some(Rendering()), true)] <= host.trace
              || (!ok && host.trace == old(host.trace) + [Launched(Some(Rendering()), false)])
      ensures |host.trace| > |old(host.trace)|
      ensures forall k | |old(host.trace)| < k < |host.trace| :: host.trace[k].Observed?
    {
      hide Replay, AllPossible, Render, Disciplined, LastLook, StartAllowed;
      ghost var text := Rendering();
      var launched := LaunchDaemon();
      if !launched {
        lastError := "lighttpd failed to start (see stderr)";
        return false;
      }
      ok := AwaitUp(text);
      if !ok {
        lastError := "lighttpd did not come up (port in use? see stderr)";
      }
    }

    /** From position n on the record shows the server down, the rendering of the
        options written, tested and launched, and nothing but polls since. */
    ghost predicate StartedAfter(n: nat)
      reads this, host
    {
      && n + 3 < |host.trace|
      && host.trace[n] == Observed(false) && host.trace[n + 1] == Wrote(Rendering(), true)
      && host.trace[n + 2] == Tested(Some(Rendering()), true) && host.trace[n + 3] == Launched(Some(Rendering()), true)
      && forall k | n + 3 < k < |host.trace| :: host.trace[k].Observed?
    }

    method EnsureDirs() returns (ok: bool)
      requires Sound()
      modifies this`lastError, host`dirs, host`dirsTried
      ensures Sound() && ok == host.script.dirs(|old(host.dirs)|)
      ensures host.dirs == old(host.dirs) + [DirAttempt(tempRoot, ok)]
      ensures if ok then lastError == old(lastError) else lastError != ""
    {
      hide Replay, AllPossible, Render, Disciplined;
      ok := host.EnsureDir(tempRoot);
      if !ok {
        lastError := "cannot create temp dir " + tempRoot;
      }
    }

    /** A fresh snippet that passes its test. */
    method WriteAndTest() returns (ok: bool)
      requires Sound()
      modifies this`lastError, host`trace, host`acted, host.disk
      ensures Sound() && (!ok ==> lastError != "") && old(host.trace) <= host.trace
      ensures ok == (host.script.acts(|old(host.trace)|) && host.script.acts(|old(host.trace)| + 1))
      ensures host.disk.fs.target == old(host.disk.fs.target) || host.disk.fs.target == Some(Rendering())
      ensures ok ==>
                && host.trace == old(host.trace) + [Wrote(Rendering(), true), Tested(Some(Rendering()), true)]
                && host.disk.fs.target == Some(Rendering())
    {
      hide Replay, AllPossible, Render, Disciplined, Sound;
      var wrote := WriteListenSnippet(None);
      if !wrote {
        return false;
      }
      ok := TestConfig();
    }

    /** The way up from stopped: make the directory, write, test, launch, wait. */
    method StartStopped() returns (ok: bool)
      requires Sound() && !host.up && host.trace != [] && host.trace[|host.trace| - 1] == Observed(false)
      modifies this`lastError, host, host.disk
      ensures Sound() && ok == host.up && (!ok ==> lastError != "") && old(host.trace) <= host.trace
      ensures ok == StartWorks(host.script, |old(host.trace)|, |old(host.dirs)|)
      ensures ok ==>
                && host.loaded == Some(Rendering()) && host.disk.fs.target == Some(Rendering())
                && StartedAfter(|old(host.trace)| - 1)
      ensures host.disk.fs.target == old(host.disk.fs.target) || host.disk.fs.target == Some(Rendering())
    {
      hide Replay, AllPossible, Render, Disciplined, Sound, LaunchWorks;
      var dirs := EnsureDirs();
      if !dirs {
        return false;
      }
      var prepared := WriteAndTest();
      if !prepared {
        return false;
      }
      MayStart(old(host.trace), Rendering());
      ok := Launch();
      if ok {
        assert host.trace[|old(host.trace)| + 2] == Launched(Some(Rendering()), true);
      }
    }

    /** Start unless running: observe, write, test, launch, wait. */
    method On() returns (ok: bool)
      requires Valid()
      modifies this`lastError, host, host.disk
      ensures Valid()
      ensures var s, n := host.script, |old(host.trace)|;
              ok == ((old(host.up) && s.acts(n)) || StartWorks(s, n + 1, |old(host.dirs)|))
      ensures ok ==> host.loaded.Some?
                     && ListensOn(Lighttpd(httpsEnabled, sslPemfile), host.loaded.value, Options())
      ensures ok == host.up && (!ok ==> lastError != "")
      ensures old(host.trace) < host.trace
      ensures var seen := host.trace[|old(host.trace)|];
              && seen.Observed?
              && (seen.running ==> ok && old(host.up) && host.trace == old(host.trace) + [seen])
              && (!seen.running && ok ==>
                    StartedAfter(|old(host.trace)|) && host.disk.fs.target == Some(Rendering()))
      ensures host.disk.fs.target == old(host.disk.fs.target) || host.disk.fs.target == Some(Rendering())
    {
      hide Replay, AllPossible, Render, Disciplined, Sound, StartedAfter, StartWorks, ListensOn;
      Fields();
      var running := IsRunning();
      if running {
        Fields();
        RenderIsRead(Lighttpd(httpsEnabled, sslPemfile), Options());
        return true;
      }
      ok := StartStopped();
      RenderIsRead(Lighttpd(httpsEnabled, sslPemfile), Options());
      Fields();
    }

    /** Signals the master; a vanished pid file counts as stopped. */
    method Off() returns (ok: bool)
      requires Sound()
      modifies this`lastError, host`up, host`loaded, host`launch, host`trace, host`acted
      ensures Sound() && (old(Valid()) ==> Valid())
      ensures host.disk.fs == old(host.disk.fs) && host.loaded == old(host.loaded)
      ensures host.up ==> old(host.up)
      ensures var s, n := host.script, |old(host.trace)|;
              && host.up == (old(host.up) && s.acts(n))
              && ok == (host.up && s.pids(n + 1) > 0 ==> s.acts(n + 1))
              && |host.trace| == if host.up && s.pids(n + 1) > 0 then n + 2 else n + 1
      ensures !ok ==> lastError != ""
      ensures (host.trace == old(host.trace) + [Observed(false)] && ok && !host.up)
              || (host.trace == old(host.trace) + [Observed(true)] && ok)
              || host.trace == old(host.trace) + [Observed(true), Signalled(ok)]
    {
      hide Replay, AllPossible, Render, Disciplined;
      var running := IsRunning();
      if !running {
        return true;
      }
      var pid := host.ReadPid();
      if pid <= 0 {
        return true;
      }
      ghost var before := host.trace;
      var error;
      ok, error := host.SignalPid(pid);
      DisciplinedOne(host.dialect, host.first, before, Signalled(ok));
      if !ok {
        lastError := error;
      }
    }

    /** The wait for the server to go: up to 50 polls, and a final look. */
    method WaitDown() returns (ok: bool)
      requires Sound()
      modifies host`up, host`loaded, host`launch, host`trace, host`acted
      ensures Sound() && ok == !host.up && old(host.trace) < host.trace
      ensures host.loaded == old(host.loaded) && (host.up ==> old(host.up))
      ensures ok == (old(host.up) ==> GoesDown(host.script, |old(host.trace)|))
      ensures ok ==> |host.trace| == if old(host.up) then DownAfter(host.script, |old(host.trace)|)
                                     else |old(host.trace)| + 2
    {
      hide Replay, AllPossible, Render, Disciplined, Sound, GoesDown, DownAfter;
      ghost var n := |host.trace|;
      var i := 0;
      while i < STOP_POLLS
        invariant 0 <= i <= STOP_POLLS && Sound() && host.loaded == old(host.loaded)
        invariant old(host.trace) <= host.trace && |host.trace| == n + i
        invariant host.up == old(host.up) && (i > 0 ==> host.up)
        invariant forall j | n <= j < n + i :: host.script.acts(j)
      {
        var still := IsRunning();
        if !still {
          break;
        }
        i := i + 1;
      }
      if old(host.up) {
        DownOnce(host.script, n, i);
      }
      var still := IsRunning();
      ok := !still;
    }

    /** Signal, and wait until the server is seen down. */
    method StopAndWait() returns (ok: bool)
      requires Sound() && host.up
      modifies this`lastError, host`up, host`loaded, host`launch, host`trace, host`acted
      ensures Sound() && (old(Valid()) ==> Valid()) && (!ok ==> lastError != "")
      ensures host.loaded == old(host.loaded) && (ok ==> !host.up)
      ensures old(host.trace) < host.trace
      ensures ok == StopWorks(host.script, |old(host.trace)|)
      ensures ok ==> |host.trace| == StoppedAfter(host.script, |old(host.trace)|)
    {
      hide Replay, AllPossible, Render, Disciplined, Sound, GoesDown, DownAfter;
      Fields();
      var stopping := Off();
      if !stopping {
        return false;
      }
      ok := WaitDown();
      Fields();
      if !ok {
        lastError := "lighttpd did not stop within timeout";
      }
    }

    /** Stop, wait until seen down, start. The old server goes on serving what it
        had loaded unless and until it is seen down; whatever comes up then serves
        the options. */
    method Reset() returns (ok: bool)
      requires Sound()
      modifies this`lastError, host, host.disk
      ensures Sound() && (old(Valid()) ==> Valid()) && (!ok ==> lastError != "")
      ensures host.disk.fs.target == old(host.disk.fs.target) || host.disk.fs.target == Some(Rendering())
      ensures ok ==> host.up && host.loaded == Some(Rendering()) && host.disk.fs.target == Some(Rendering())
      ensures !ok && host.up ==> old(host.up) && host.loaded == old(host.loaded)
      ensures ok ==> exists n :: |old(host.trace)| <= n && StartedAfter(n)
      ensures ok == ResetWorks(host.script, old(host.up), |old(host.trace)|, |old(host.dirs)|)
      ensures old(host.trace) < host.trace
    {
      hide Replay, AllPossible, Render, Disciplined, Sound, StartedAfter, StopWorks, StoppedAfter, StartWorks,
        ListensOn;
      Fields();
      var running := IsRunning();
      if running {
        var stopped := StopAndWait();
        if !stopped {
          Fields();
          return false;
        }
      }
      Fields();
      ghost var n := |host.trace|;
      ok := On();
      Fields();
      assert ok ==> StartedAfter(n);
    }

    /** Test, then restart; a failed test leaves the running server alone. */
    method Reload() returns (ok: bool)
      requires Sound()
      modifies this`lastError, host, host.disk
      ensures Sound() && (old(Valid()) ==> Valid()) && (!ok ==> lastError != "")
      ensures host.disk.fs.target == old(host.disk.fs.target) || host.disk.fs.target == Some(Rendering())
      ensures ok ==> host.up && host.loaded == Some(Rendering()) && host.disk.fs.target == Some(Rendering())
      ensures !ok && host.up ==> old(host.up) && host.loaded == old(host.loaded)
      ensures ok ==>
                && old(host.trace) + [Observed(true), Tested(old(host.disk.fs.target), true)] <= host.trace
                && exists n :: |old(host.trace)| + 2 <= n && StartedAfter(n)
      ensures host.trace == old(host.trace) + [Observed(true), Tested(old(host.disk.fs.target), false)] ==>
                !ok && host.disk.fs == old(host.disk.fs) && host.loaded == old(host.loaded)
      ensures old(host.trace) < host.trace
      ensures ok == ReloadWorks(host.script, old(host.up), |old(host.trace)|, |old(host.dirs)|)
    {
      hide Replay, AllPossible, Disciplined, Render, Sound, StartedAfter, ResetWorks;
      Fields();
      var running := IsRunning();
      if !running {
        lastError := "lighttpd is not running";
        return false;
      }
      var tested := TestConfig();
      if !tested {
        return false;
      }
      ok := Reset();
    }

    /** The option fields take new values. */
    method AssignPorts(http: Port, https: Port)
      requires Sound()
      modifies this`httpPort, this`httpsPort, host`ports, host`trace, host`acted
      ensures Sound() && Options() == Ports(http, https)
      ensures host.trace == old(host.trace) + [Configured(Options())]
      ensures host.Now() == old(host.Now()).(ports := Options())
    {
      hide Replay, AllPossible, Render, Disciplined;
      DisciplinedOne(host.dialect, host.first, host.trace, Configured(Ports(http, https)));
      httpPort, httpsPort := http, https;
      host.Configure(Ports(http, https));
    }

    method SetListenPort(http: Port) returns (ok: bool)
      requires Valid()
      modifies this, host, host.disk
      ensures Valid() && old(host.trace) < host.trace && (!ok ==> lastError != "")
      ensures Options() == if ok then Ports(http, old(httpsPort)) else old(Options())
      ensures ok ==> host.disk.fs.target == Some(Rendering())
      ensures host.up ==> host.loaded == Some(Rendering())
    {
      ok := SetListenPorts(http, httpsPort);
    }

    /** Takes a change back: the old ports, and the snippet written with them. */
    method RollBack(ghost tried: Ports, prev: Ports) returns (ok: bool)
      requires Sound() && host.disk.fs.target == Some(Render(host.dialect, tried))
      modifies this`lastError, this`httpPort, this`httpsPort, host`ports, host`trace, host`acted, host.disk
      ensures Sound() && Options() == prev
      ensures host.trace == old(host.trace) + [Configured(prev), RolledBack(tried, Rendering(), ok)]
      ensures if ok then lastError == old(lastError) else lastError != ""
      ensures var text := Render(host.dialect, if ok then prev else tried);
              host.Now() == old(host.Now()).(ports := prev, snippet := Some(text))
    {
      hide Replay, AllPossible, Render, Disciplined;
      AssignPorts(prev.http, prev.https);
      ok := WriteListenSnippet(Some(tried));
      assert host.trace == old(host.trace) + [Configured(prev), RolledBack(tried, Rendering(), ok)];
    }

    /** The second half of a port change, after the new ports are in the snippet: a
        running server restarts, and if that fails, the old ports are put back. A
        server that is up was serving the old ports. */
    method Apply(prev: Ports) returns (ok: bool)
      requires Sound() && host.disk.fs.target == Some(Rendering())
      requires host.up ==> host.loaded == Some(Render(host.dialect, prev))
      modifies this`lastError, this`httpPort, this`httpsPort, host, host.disk
      ensures Valid() && old(host.trace) < host.trace && (!ok ==> lastError != "")
      ensures Options() == if ok then old(Options()) else prev
      ensures var s, n := host.script, |old(host.trace)|;
              ok == (old(host.up) && s.acts(n) ==> ReloadWorks(s, true, n + 1, |old(host.dirs)|))
      ensures ok ==> host.disk.fs.target == Some(Rendering())
      ensures !ok ==>
                var tried, n := old(Options()), |host.trace|;
                exists back ::
                  && n >= 2 && host.trace[n - 2..] == [Configured(prev), RolledBack(tried, Rendering(), back)]
                  && host.disk.fs.target == Some(Render(host.dialect, if back then prev else tried))
    {
      hide Replay, AllPossible, Render, Disciplined, Sound, StartedAfter, ReloadWorks;
      Fields();
      var running := IsRunning();
      if !running {
        return true;
      }
      ok := Reload();
      Fields();
      if !ok {
        var back := RollBack(old(Options()), prev);
        Fields();
        assert host.trace[|host.trace| - 2..] == [Configured(prev), RolledBack(old(Options()), Rendering(), back)];
      }
    }

    /** A transactional port change: true means the new ports are reported, written
        and, if the server is up, served; false means the old ports are reported,
        a server still up serves them, and the snippet is untouched, rolled back,
        or, when the rollback write fails, left with the new rendering. */
    method SetListenPorts(http: Port, https: Port) returns (ok: bool)
      requires Valid()
      modifies this, host, host.disk
      ensures Valid() && old(host.trace) < host.trace && (!ok ==> lastError != "")
      ensures Options() == if ok then Ports(http, https) else old(Options())
      ensures ok ==> host.disk.fs.target == Some(Rendering())
      ensures ok == ChangeWorks(host.script, old(host.up), |old(host.trace)|, |old(host.dirs)|)
      ensures host.up ==> host.loaded == Some(Rendering())
      ensures host.up ==> ListensOn(Lighttpd(httpsEnabled, sslPemfile), host.loaded.value, Options())
      ensures !ok ==>
                var new_, prev, n := Ports(http, https), old(Options()), |host.trace|;
                var d := Lighttpd(httpsEnabled, sslPemfile);
                || (host.trace == old(host.trace) + [Configured(new_), Wrote(Render(d, new_), false), Configured(prev)]
                    && host.disk.fs.target == old(host.disk.fs.target))
                || (exists back ::
                      && n >= 2 && host.trace[n - 2..] == [Configured(prev), RolledBack(new_, Render(d, prev), back)]
                      && host.disk.fs.target == Some(Render(d, if back then prev else new_)))
    {
      hide Replay, AllPossible, Render, Disciplined, Sound, ReloadWorks, ListensOn;
      Fields();
      var prevHttp, prevHttps := httpPort, httpsPort;
      AssignPorts(http, https);
      var wrote := WriteListenSnippet(None);
      Fields();
      if !wrote {
        AssignPorts(prevHttp, prevHttps);
        Fields();
        RenderIsRead(Lighttpd(httpsEnabled, sslPemfile), Options());
        return false;
      }
      ok := Apply(Ports(prevHttp, prevHttps));
      Fields();
      RenderIsRead(Lighttpd(httpsEnabled, sslPemfile), Options());
    }

    /** Any sequence of calls, with any outcomes: the reported ports are the last
        accepted pair, and a server that is up serves exactly those. */
    method Drive(calls: seq<Call>) returns (results: seq<bool>)
      requires Valid()
      modifies this, host, host.disk
      ensures Valid() && |results| == |calls|
      ensures Options() == LastAccepted(old(Options()), calls, results)
      ensures ServesReported(host.dialect, host.Now())
      ensures host.up ==> host.loaded.Some?
                          && ListensOn(Lighttpd(httpsEnabled, sslPemfile), host.loaded.value, Options())
      ensures old(host.trace) <= host.trace && Disciplined(host.dialect, host.first, host.trace)
    {
      hide Replay, AllPossible, Disciplined, Render;
      results := [];
      var i := 0;
      while i < |calls|
        invariant 0 <= i <= |calls| && |results| == i && Valid()
        invariant Options() == LastAccepted(old(Options()), calls[..i], results)
        invariant old(host.trace) <= host.trace
      {
        var ok;
        match calls[i] {
          case TurnOn => ok := On();
          case TurnOff => ok := Off();
          case Restart => ok := Reset();
          case ReloadConfig => ok := Reload();
          case SetPorts(ports) => ok := SetListenPorts(ports.http, ports.https);
        }
        AcceptOne(old(Options()), calls[..i], results, calls[i], ok);
        assert calls[..i + 1] == calls[..i] + [calls[i]];
        results := results + [ok];
        i := i + 1;
      }
      assert calls[..i] == calls;
      Fields();
      LoadedIsServed(host.dialect, host.Now());
    }
  }
}
