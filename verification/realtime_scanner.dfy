/** The real-time scanner (internal/scanner/realtime_scanner.go): starting
    registers every non-excluded directory with the file watcher, and each
    qualifying file event turns into one scan task.

    The watcher is an input (`add` says how registering one directory
    went, `close` how closing went); the event loop, the goroutines and
    the worker pool are concurrency and are left out, except for the rule
    deciding which events become tasks. */
module RealtimeScanner {
  import opened Outcomes
  import opened Text
  import Config
  import opened FileTree
  import opened Scanner

  /** The scanner's flag, the directories its watcher holds, and whether
      that watcher has been closed. The watcher is created once, with the
      scanner, and nothing reopens it. */
  datatype RealtimeState = RealtimeState(isRunning: bool, watched: seq<string>, closed: bool)

  /** `NewRealtimeScanner`: idle, watching nothing, with an open watcher. */
  const FRESH := RealtimeState(false, [], false)

  /** Registering a list of directories, in order, until one fails. */
  datatype Registration = Registration(registered: seq<string>, failure: Option<string>)

  function RegisterDirs(dirs: seq<string>, add: string -> Status): (r: Registration)
    ensures |r.registered| <= |dirs| && r.registered == dirs[..|r.registered|]
    ensures r.failure.None? <==> forall k :: 0 <= k < |dirs| ==> add(dirs[k]).Pass?
    ensures r.failure.None? ==> r.registered == dirs
    ensures r.failure.Some? ==>
      |r.registered| < |dirs| && add(dirs[|r.registered|]) == Fail(r.failure.value)
    ensures forall k :: 0 <= k < |r.registered| ==> add(r.registered[k]).Pass?
    decreases |dirs|
  {
    if |dirs| == 0 then Registration([], None)
    else match add(dirs[0])
      case Fail(e) => Registration([], Some(e))
      case Pass =>
        var rest := RegisterDirs(dirs[1..], add);
        Registration([dirs[0]] + rest.registered, rest.failure)
  }

  /** The directories the walk of one root registers: every visited
      directory, in visiting order. */
  function WalkedDirs(n: Node, exclude: seq<string>): seq<string> {
    DirPaths(Visible(n, exclude))
  }

  /** Every directory the walks over the roots visit, root by root, up to
      the first root that cannot be stat'ed. */
  function AllWalked(roots: seq<string>, fs: Lookup, exclude: seq<string>): seq<string>
    decreases |roots|
  {
    if |roots| == 0 then []
    else match fs(roots[0])
      case Err(_) => []
      case Ok(n) => WalkedDirs(n, exclude) + AllWalked(roots[1..], fs, exclude)
  }

  /** The walks over all configured roots, stopping at the first failure;
      a root that cannot be stat'ed is a failure too. What is registered is
      always a prefix of all walked directories, and all of them exactly
      when every root is found and every directory registers. */
  function RegisterRoots(roots: seq<string>, fs: Lookup, exclude: seq<string>, add: string -> Status)
    : (r: Registration)
    ensures |r.registered| <= |AllWalked(roots, fs, exclude)|
    ensures r.registered == AllWalked(roots, fs, exclude)[..|r.registered|]
    ensures r.failure.None? <==>
      (forall k :: 0 <= k < |roots| ==> fs(roots[k]).Ok?) &&
      (forall a :: 0 <= a < |AllWalked(roots, fs, exclude)| ==> add(AllWalked(roots, fs, exclude)[a]).Pass?)
    ensures r.failure.None? ==> r.registered == AllWalked(roots, fs, exclude)
    ensures forall d :: d in r.registered ==> add(d).Pass?
    decreases |roots|
  {
    if |roots| == 0 then Registration([], None)
    else match fs(roots[0])
      case Err(e) => Registration([], Some(e))
      case Ok(n) =>
        var first := RegisterDirs(WalkedDirs(n, exclude), add);
        var walked := WalkedDirs(n, exclude);
        var later := AllWalked(roots[1..], fs, exclude);
        assert AllWalked(roots, fs, exclude) == walked + later;
        if first.failure.Some? then
          PrefixOfJoin(walked, later, first.registered);
          FailedRootsStop(roots, fs, exclude, add, walked, later, |first.registered|);
          first
        else
          var rest := RegisterRoots(roots[1..], fs, exclude, add);
          JoinOfPrefixes(walked, later, rest.registered);
          RootsJoin(roots, fs, exclude, add, walked, later, rest.failure.None?);
          Registration(first.registered + rest.registered, rest.failure)
  }

  /** A prefix of the first part is a prefix of the whole. */
  lemma PrefixOfJoin(a: seq<string>, b: seq<string>, p: seq<string>)
    requires |p| <= |a| && p == a[..|p|]
    ensures p == (a + b)[..|p|]
  {
    assert forall k :: 0 <= k < |p| ==> (a + b)[k] == a[k];
  }

  /** The whole first part followed by a prefix of the second. */
  lemma JoinOfPrefixes(a: seq<string>, b: seq<string>, p: seq<string>)
    requires |p| <= |b| && p == b[..|p|]
    ensures a + p == (a + b)[..|a| + |p|]
  {
    assert forall k :: |a| <= k < |a| + |p| ==> (a + b)[k] == b[k - |a|];
  }

  /** A directory of the first root that does not register is a walked
      directory that does not register. */
  lemma FailedRootsStop(roots: seq<string>, fs: Lookup, exclude: seq<string>, add: string -> Status,
                        walked: seq<string>, later: seq<string>, i: nat)
    requires |roots| > 0 && AllWalked(roots, fs, exclude) == walked + later
    requires i < |walked| && add(walked[i]).Fail?
    ensures !forall a :: 0 <= a < |AllWalked(roots, fs, exclude)| ==> add(AllWalked(roots, fs, exclude)[a]).Pass?
  {
    assert (walked + later)[i] == walked[i];
  }

  /** With the first root stat'ed and all its directories registered, the
      whole run succeeds exactly when the run over the later roots does. */
  lemma RootsJoin(roots: seq<string>, fs: Lookup, exclude: seq<string>, add: string -> Status,
                  walked: seq<string>, later: seq<string>, restOk: bool)
    requires |roots| > 0 && fs(roots[0]).Ok?
    requires AllWalked(roots, fs, exclude) == walked + later && later == AllWalked(roots[1..], fs, exclude)
    requires forall a :: 0 <= a < |walked| ==> add(walked[a]).Pass?
    requires restOk <==>
      (forall k :: 0 <= k < |roots[1..]| ==> fs(roots[1..][k]).Ok?) &&
      (forall a :: 0 <= a < |later| ==> add(later[a]).Pass?)
    ensures restOk <==>
      (forall k :: 0 <= k < |roots| ==> fs(roots[k]).Ok?) &&
      (forall a :: 0 <= a < |walked + later| ==> add((walked + later)[a]).Pass?)
  {
    if !restOk {
      if exists k :: 0 <= k < |roots[1..]| && !fs(roots[1..][k]).Ok? {
        var k :| 0 <= k < |roots[1..]| && !fs(roots[1..][k]).Ok?;
        assert roots[1..][k] == roots[k + 1];
      } else {
        var a :| 0 <= a < |later| && !add(later[a]).Pass?;
        assert (walked + later)[|walked| + a] == later[a];
      }
    } else {
      forall k | 0 <= k < |roots| ensures fs(roots[k]).Ok? {
        if k > 0 {
          assert roots[1..][k - 1] == roots[k];
        }
      }
      forall a | 0 <= a < |walked + later| ensures add((walked + later)[a]).Pass? {
        if a >= |walked| {
          assert (walked + later)[a] == later[a - |walked|];
        }
      }
    }
  }

  /** A successful registration of one root registers every directory no
      excluded directory hides, and nothing but visited directories. */
  lemma RegisteredIffNotHidden(n: Node, exclude: seq<string>, add: string -> Status, d: Node, p: string)
    requires d.Dir?
    requires RegisterDirs(WalkedDirs(n, exclude), add).failure.None?
    ensures (exists route :: NodeAt(n, route) == Some(d) && Clear(n, route, exclude)) ==>
      d.path in RegisterDirs(WalkedDirs(n, exclude), add).registered
    ensures p in RegisterDirs(WalkedDirs(n, exclude), add).registered ==>
      exists k :: 0 <= k < |Visible(n, exclude)| && Visible(n, exclude)[k].Dir? && Visible(n, exclude)[k].path == p
  {
    var ns := Visible(n, exclude);
    if exists route :: NodeAt(n, route) == Some(d) && Clear(n, route, exclude) {
      var route :| NodeAt(n, route) == Some(d) && Clear(n, route, exclude);
      RouteIsVisible(n, exclude, route);
      var k :| 0 <= k < |ns| && ns[k] == d;
      assert d.path in DirPaths(ns);
    }
  }

  /** The root of an excluded directory registers nothing at all. */
  lemma ExcludedRootRegistersNothing(path: string, children: seq<Node>, exclude: seq<string>, add: string -> Status)
    requires path in exclude
    ensures RegisterDirs(WalkedDirs(Dir(path, children), exclude), add) == Registration([], None)
  {
  }

  const DISABLED := "realtime scanning is disabled in configuration"

  /** The error a closed watcher gives for every directory it is asked to
      watch. */
  const WATCHER_CLOSED := "watcher already closed"

  /** How registering one directory goes: the watcher's own answer while it
      is open, always the closed-watcher error once it is closed. */
  function Adder(s: RealtimeState, add: string -> Status): (f: string -> Status)
    ensures s.closed ==> forall d :: f(d) == Fail(WATCHER_CLOSED)
    ensures !s.closed ==> forall d :: f(d) == add(d)
  {
    if s.closed then (d: string) => Fail(WATCHER_CLOSED) else add
  }

  datatype StartResult = StartResult(state: RealtimeState, status: Status)

  /** `RealtimeScanner.Start`: the configuration switch is checked before
      the running flag; the flag goes up before any directory is registered
      and stays up when a registration fails. Registration goes through the
      scanner's one watcher, so after a `Stop` it fails at the first
      directory. */
  function Start(c: Config.Config, s: RealtimeState, fs: Lookup, add: string -> Status): (r: StartResult)
    ensures !c.scan.realtime.enabled ==> r == StartResult(s, Fail(DISABLED))
    ensures c.scan.realtime.enabled && s.isRunning ==> r == StartResult(s, Fail(ALREADY_RUNNING))
    ensures c.scan.realtime.enabled && !s.isRunning ==> r.state.isRunning
    ensures r.state.closed == s.closed
    ensures c.scan.realtime.enabled && !s.isRunning ==>
      var reg := RegisterRoots(c.scan.directories, fs, c.scan.excludeDirs, Adder(s, add));
      && r.state.watched == s.watched + reg.registered
      && (r.status.Pass? <==> reg.failure.None?)
      && (reg.failure.Some? ==> r.status == Fail("failed to add directory to watcher: " + reg.failure.value))
  {
    if !c.scan.realtime.enabled then StartResult(s, Fail(DISABLED))
    else if s.isRunning then StartResult(s, Fail(ALREADY_RUNNING))
    else
      var running := s.(isRunning := true);
      var reg := RegisterRoots(c.scan.directories, fs, c.scan.excludeDirs, Adder(s, add));
      var watching := running.(watched := running.watched + reg.registered);
      match reg.failure
      case Some(e) => StartResult(watching, Fail("failed to add directory to watcher: " + e))
      case None => StartResult(watching, Pass)
  }

  /** A directory the walk of a root visits is among all walked
      directories when every root is found. */
  lemma {:induction false} WalkedInAll(roots: seq<string>, fs: Lookup, exclude: seq<string>, k: nat, p: string)
    requires k < |roots| && forall j :: 0 <= j < |roots| ==> fs(roots[j]).Ok?
    requires p in WalkedDirs(fs(roots[k]).value, exclude)
    ensures p in AllWalked(roots, fs, exclude)
    decreases |roots|
  {
    if k > 0 {
      assert roots[1..][k - 1] == roots[k];
      assert forall j :: 0 <= j < |roots[1..]| ==> roots[1..][j] == roots[j + 1];
      WalkedInAll(roots[1..], fs, exclude, k - 1, p);
    }
  }

  /** Every walked directory comes from the walk of some root that was
      found. */
  lemma {:induction false} AllWalkedFromRoot(roots: seq<string>, fs: Lookup, exclude: seq<string>, p: string)
    returns (k: nat)
    requires p in AllWalked(roots, fs, exclude)
    ensures k < |roots| && fs(roots[k]).Ok? && p in WalkedDirs(fs(roots[k]).value, exclude)
    decreases |roots|
  {
    var walked := WalkedDirs(fs(roots[0]).value, exclude);
    if p in walked {
      k := 0;
    } else {
      var j := AllWalkedFromRoot(roots[1..], fs, exclude, p);
      assert roots[1..][j] == roots[j + 1];
      k := j + 1;
    }
  }

  /** After a successful start every directory under a configured root
      that no excluded directory hides is watched. */
  lemma StartWatchesEveryVisibleDir(c: Config.Config, s: RealtimeState, fs: Lookup, add: string -> Status,
                                    k: nat, d: Node)
    requires c.scan.realtime.enabled && !s.isRunning
    requires Start(c, s, fs, add).status.Pass?
    requires k < |c.scan.directories|
    ensures fs(c.scan.directories[k]).Ok?
    ensures var n := fs(c.scan.directories[k]).value;
      d.Dir? && (exists route :: NodeAt(n, route) == Some(d) && Clear(n, route, c.scan.excludeDirs))
      ==> d.path in Start(c, s, fs, add).state.watched
  {
    var roots, exclude := c.scan.directories, c.scan.excludeDirs;
    var n := fs(roots[k]).value;
    if d.Dir? && exists route :: NodeAt(n, route) == Some(d) && Clear(n, route, exclude) {
      var route :| NodeAt(n, route) == Some(d) && Clear(n, route, exclude);
      RouteIsVisible(n, exclude, route);
      var ns := Visible(n, exclude);
      var i :| 0 <= i < |ns| && ns[i] == d;
      assert d.path in DirPaths(ns);
      WalkedInAll(roots, fs, exclude, k, d.path);
    }
  }

  /** Conversely, whether or not it succeeds, a start adds to the watched
      list only directories under a configured root that no excluded
      directory hides. */
  lemma StartWatchesOnlyVisibleDirs(c: Config.Config, s: RealtimeState, fs: Lookup, add: string -> Status, p: string)
    returns (k: nat, d: Node)
    requires c.scan.realtime.enabled && !s.isRunning
    requires p in Start(c, s, fs, add).state.watched && p !in s.watched
    ensures k < |c.scan.directories| && fs(c.scan.directories[k]).Ok?
    ensures d.Dir? && d.path == p
    ensures var n := fs(c.scan.directories[k]).value;
      exists route :: NodeAt(n, route) == Some(d) && Clear(n, route, c.scan.excludeDirs)
  {
    var roots, exclude := c.scan.directories, c.scan.excludeDirs;
    var reg := RegisterRoots(roots, fs, exclude, Adder(s, add));
    var all := AllWalked(roots, fs, exclude);
    assert p in reg.registered;
    var a :| 0 <= a < |reg.registered| && reg.registered[a] == p;
    assert all[a] == p;
    k := AllWalkedFromRoot(roots, fs, exclude, p);
    var n := fs(roots[k]).value;
    var ns := Visible(n, exclude);
    var i :| 0 <= i < |ns| && ns[i].Dir? && ns[i].path == p;
    d := ns[i];
    VisibleIff(n, exclude, d);
  }

  /** A disabled scanner reports that it is disabled even while running. */
  lemma DisabledCheckedFirst(c: Config.Config, fs: Lookup, add: string -> Status, watched: seq<string>, closed: bool)
    requires !c.scan.realtime.enabled
    ensures Start(c, RealtimeState(true, watched, closed), fs, add).status == Fail(DISABLED)
  {
  }

  /** `RealtimeScanner.Stop`: from idle a no-op; from running the flag
      goes down and the watcher is closed, which drops every watch, and
      the close result is returned. */
  function Stop(s: RealtimeState, close: Status): (r: StartResult)
    ensures !r.state.isRunning
    ensures !s.isRunning ==> r == StartResult(s, Pass)
    ensures s.isRunning ==> r.status == close && r.state.watched == [] && r.state.closed
  {
    if !s.isRunning then StartResult(s, Pass) else StartResult(RealtimeState(false, [], true), close)
  }

  lemma StopIdempotent(s: RealtimeState, close1: Status, close2: Status)
    ensures Stop(Stop(s, close1).state, close2) == StartResult(Stop(s, close1).state, Pass)
  {
  }

  /** Once the watcher is closed no directory can be registered: a restart
      succeeds only when no root fails and the walk meets no directory at
      all, it adds nothing to `watched`, and the flag stays up either way. */
  lemma RestartAfterStop(c: Config.Config, s: RealtimeState, fs: Lookup, add: string -> Status)
    requires c.scan.realtime.enabled && !s.isRunning && s.closed
    ensures var r := Start(c, s, fs, add);
      && r.state == s.(isRunning := true)
      && (r.status.Pass? <==>
           (forall k :: 0 <= k < |c.scan.directories| ==> fs(c.scan.directories[k]).Ok?)
           && AllWalked(c.scan.directories, fs, c.scan.excludeDirs) == [])
  {
    var roots, exclude := c.scan.directories, c.scan.excludeDirs;
    var f := Adder(s, add);
    var reg := RegisterRoots(roots, fs, exclude, f);
    var all := AllWalked(roots, fs, exclude);
    assert reg.registered == [];
    if all != [] {
      assert !f(all[0]).Pass?;
    }
  }

  /** A scanner that was started and stopped cannot be started again once
      any configured directory is walked. */
  lemma StartStopStartFails(c: Config.Config, fs: Lookup, add: string -> Status, close: Status)
    requires c.scan.realtime.enabled
    requires AllWalked(c.scan.directories, fs, c.scan.excludeDirs) != []
    ensures var first := Start(c, FRESH, fs, add);
      var stopped := Stop(first.state, close);
      Start(c, stopped.state, fs, add).status.Fail?
  {
    var first := Start(c, FRESH, fs, add);
    var stopped := Stop(first.state, close);
    RestartAfterStop(c, stopped.state, fs, add);
  }

  // fsnotify operation bits.
  const CREATE: bv32 := 1
  const WRITE: bv32 := 2
  const REMOVE: bv32 := 4
  const RENAME: bv32 := 8
  const CHMOD: bv32 := 16

  datatype Event = Event(name: string, op: bv32)

  /** The watch loop's filter: the operation includes a create or a write,
      and the extension is exactly a configured type. */
  predicate Qualifies(e: Event, fileTypes: seq<string>) {
    e.op & (CREATE | WRITE) != 0 && TypeMatches(Ext(e.name), fileTypes)
  }

  /** The bit test is "has the create bit or has the write bit". */
  lemma QualifyingOps(op: bv32)
    ensures op & (CREATE | WRITE) != 0 <==> op & CREATE != 0 || op & WRITE != 0
  {
  }

  /** The paths the loop hands to scan tasks, one per qualifying event, in
      arrival order. */
  function Dispatch(events: seq<Event>, fileTypes: seq<string>): (tasks: seq<string>)
    ensures |tasks| <= |events|
    ensures forall p :: p in tasks ==> exists k :: 0 <= k < |events| && events[k].name == p && Qualifies(events[k], fileTypes)
    decreases |events|
  {
    if |events| == 0 then []
    else
      var rest := Dispatch(events[1..], fileTypes);
      forall p | p in rest
        ensures exists k :: 0 <= k < |events| && events[k].name == p && Qualifies(events[k], fileTypes)
      {
        var j :| 0 <= j < |events[1..]| && events[1..][j].name == p && Qualifies(events[1..][j], fileTypes);
        assert events[j + 1] == events[1..][j];
      }
      (if Qualifies(events[0], fileTypes) then [events[0].name] else []) + rest
  }

  /** Dispatching a stream is dispatching its parts one after the other. */
  lemma {:induction false} DispatchAppend(a: seq<Event>, b: seq<Event>, fileTypes: seq<string>)
    ensures Dispatch(a + b, fileTypes) == Dispatch(a, fileTypes) + Dispatch(b, fileTypes)
    decreases |a|
  {
    if |a| == 0 {
      assert a + b == b;
    } else {
      var head := if Qualifies(a[0], fileTypes) then [a[0].name] else [];
      assert (a + b)[0] == a[0] && (a + b)[1..] == a[1..] + b;
      assert Dispatch(a + b, fileTypes) == head + Dispatch(a[1..] + b, fileTypes);
      assert Dispatch(a, fileTypes) == head + Dispatch(a[1..], fileTypes);
      DispatchAppend(a[1..], b, fileTypes);
      assert head + (Dispatch(a[1..], fileTypes) + Dispatch(b, fileTypes))
          == (head + Dispatch(a[1..], fileTypes)) + Dispatch(b, fileTypes);
    }
  }

  /** One event gives one task exactly when it qualifies, and none
      otherwise. */
  lemma OneTaskPerQualifyingEvent(e: Event, fileTypes: seq<string>)
    ensures Qualifies(e, fileTypes) ==> Dispatch([e], fileTypes) == [e.name]
    ensures !Qualifies(e, fileTypes) ==> Dispatch([e], fileTypes) == []
  {
    assert [e][1..] == [];
  }

  /** Removals, renames and permission changes alone never start a scan. */
  lemma OtherOpsIgnored(name: string, fileTypes: seq<string>)
    ensures !Qualifies(Event(name, REMOVE | RENAME | CHMOD), fileTypes)
  {
  }
}
