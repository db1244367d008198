/**
 * The interactive shell of the system-information tool: the menu loop of
 * `main`, which owns the current path and the settings, dispatches each
 * choice, and saves the settings after every change.
 */
module InteractiveShell {
  import opened Options
  import opened SettingsStore
  import opened VolumeReport
  import opened DirectoryLister

  /** The menu's choices. */
  const SYSTEM_INFO := 1
  const DRIVE_INFO := 2
  const LIST_DIRECTORY := 3
  const CHANGE_DIRECTORY := 4
  const TOGGLE_HIDDEN := 5
  const EXIT := 6

  /** What the operating system answers during one menu step. */
  datatype Os = Os(
    volumes: map<string, StatVfs>,           // `statvfs` by path; a missing path fails
    directories: map<string, seq<DirEntry>>, // enumeration by path; a missing path fails `opendir`
    configWritable: bool)                    // whether the configuration file opens for writing

  /** What one menu step shows. The system report itself is not modelled. */
  datatype Output =
    | SystemInfoShown
    | DriveShown(volume: Option<VolumeBytes>)
    | DirectoryShown(listing: Option<seq<Row>>)
    | PathChanged
    | HiddenToggled
    | Exited
    | InvalidOption

  /** One line of input to the menu: the choice as `scanf("%d")` parsed it,
      the text standing on standard input when the choice asks for a path,
      and what the operating system answers during that step. */
  datatype Input = Input(choice: int, pending: string, os: Os)

  /** The variables of `main` that the menu loop reads and writes, and the
      content of the configuration file; `None` while it cannot be read. */
  datatype MenuState = MenuState(
    currentPath: string,
    settings: Settings,
    running: bool,
    configFile: Option<string>)

  /** The current path is the last visited path, and fits its buffer. */
  predicate ValidState(st: MenuState)
  {
    st.currentPath == st.settings.lastVisitedPath && |st.currentPath| < MAX_PATH
  }

  /** The choices that change the settings and save them. */
  predicate Mutates(choice: int)
  {
    choice == CHANGE_DIRECTORY || choice == TOGGLE_HIDDEN
  }

  /** The state before the first pass: the settings loaded from `config`
      (or from `cwd` when the file cannot be read), their path made current,
      and the loop running. */
  function Startup(config: Option<string>, cwd: string): (r: MenuState)
    ensures ValidState(r) && r.running
    ensures r.settings == Load(config, cwd) && r.configFile == config
  {
    var loaded := Load(config, cwd);
    MenuState(loaded.lastVisitedPath, loaded, true, config)
  }

  /** What one pass through the body of the menu loop does to the state. */
  function Next(st: MenuState, input: Input): (r: MenuState)
    ensures ValidState(st) ==> ValidState(r)
    ensures Mutates(input.choice) && input.os.configWritable ==>
      r.configFile == Some(Serialize(r.settings))
    ensures !Mutates(input.choice) ==>
      r.currentPath == st.currentPath && r.settings == st.settings && r.configFile == st.configFile
    ensures r.running <==> st.running && input.choice != EXIT
  {
    if input.choice == CHANGE_DIRECTORY then
      var path := EnteredPath(input.pending, st.currentPath);
      var settings := st.settings.(lastVisitedPath := path);
      st.(currentPath := path, settings := settings,
          configFile := Save(st.configFile, settings, input.os.configWritable))
    else if input.choice == TOGGLE_HIDDEN then
      var settings := st.settings.(showHiddenFiles := Toggle(st.settings.showHiddenFiles));
      st.(settings := settings, configFile := Save(st.configFile, settings, input.os.configWritable))
    else if input.choice == EXIT then
      st.(running := false)
    else
      st
  }

  /** The state after the menu loop has read `script`, one step per input
      for as long as it runs. */
  function Session(st: MenuState, script: seq<Input>): MenuState
  {
    if script == [] then st
    else
      var before := Session(st, script[..|script| - 1]);
      if before.running then Next(before, script[|script| - 1]) else before
  }

  /** The loop still runs exactly when it ran at the start and no input
      chose to exit. */
  lemma {:induction false} SessionRunning(st: MenuState, script: seq<Input>)
    ensures Session(st, script).running <==>
      st.running && forall k | 0 <= k < |script| :: script[k].choice != EXIT
  {
    if script != [] {
      var p := script[..|script| - 1];
      SessionRunning(st, p);
      assert forall k | 0 <= k < |p| :: p[k] == script[k];
    }
  }

  /** Once the loop has stopped, further input changes nothing. */
  lemma {:induction false} SessionStopped(st: MenuState, p: seq<Input>, q: seq<Input>)
    requires !Session(st, p).running
    ensures Session(st, p + q) == Session(st, p)
  {
    if q == [] {
      assert p + q == p;
    } else {
      var q' := q[..|q| - 1];
      assert (p + q)[..|p + q| - 1] == p + q';
      SessionStopped(st, p, q');
      assert Session(st, p + q) == Session(st, p + q');
    }
  }

  /** What the menu loop has done once it stopped after `i` inputs, by an
      exit or at the end of the script. */
  lemma SessionOutcome(st: MenuState, script: seq<Input>, i: nat)
    requires st.running && i <= |script|
    requires i == |script| || !Session(st, script[..i]).running
    requires forall k | 0 <= k < i - 1 :: script[k].choice != EXIT
    ensures Session(st, script) == Session(st, script[..i])
    ensures (forall k | 0 <= k < i :: !Mutates(script[k].choice)) ==>
      && Session(st, script).currentPath == st.currentPath
      && Session(st, script).settings == st.settings
      && Session(st, script).configFile == st.configFile
    ensures (forall k | 0 <= k < |script| :: !script[k].os.configWritable) ==>
      Session(st, script).configFile == st.configFile
    ensures
      && (forall k | 0 <= k < |script| :: script[k].os.configWritable)
      && (exists k | 0 <= k < i :: Mutates(script[k].choice))
      ==> Session(st, script).configFile == Some(Serialize(Session(st, script).settings))
  {
    SessionPrefix(st, script, i);
    if forall k | 0 <= k < i :: !Mutates(script[k].choice) {
      assert forall k | 0 <= k < i :: script[..i][k] == script[k];
      SessionWithoutMutation(st, script[..i]);
    }
    if forall k | 0 <= k < |script| :: !script[k].os.configWritable {
      SessionReadOnlyKeepsFile(st, script);
    }
    if (forall k | 0 <= k < |script| :: script[k].os.configWritable)
       && (exists k | 0 <= k < i :: Mutates(script[k].choice))
    {
      var k :| 0 <= k < i && Mutates(script[k].choice);
      SessionSavesFile(st, script, k);
    }
  }

  /** A prefix the loop stopped after, or the whole script, ends in the same
      state as the whole script. */
  lemma SessionPrefix(st: MenuState, script: seq<Input>, i: nat)
    requires i <= |script| && (i == |script| || !Session(st, script[..i]).running)
    ensures Session(st, script) == Session(st, script[..i])
  {
    if i < |script| {
      SessionStopped(st, script[..i], script[i..]);
      assert script[..i] + script[i..] == script;
    } else {
      assert script[..i] == script;
    }
  }

  /** Every step keeps the current path equal to the last visited path and
      inside its buffer. */
  lemma {:induction false} SessionValid(st: MenuState, script: seq<Input>)
    requires ValidState(st)
    ensures ValidState(Session(st, script))
  {
    if script != [] {
      SessionValid(st, script[..|script| - 1]);
    }
  }

  /** A session whose inputs never change the settings leaves the path, the
      settings and the file as they were. */
  lemma {:induction false} SessionWithoutMutation(st: MenuState, script: seq<Input>)
    requires forall k | 0 <= k < |script| :: !Mutates(script[k].choice)
    ensures Session(st, script).currentPath == st.currentPath
    ensures Session(st, script).settings == st.settings
    ensures Session(st, script).configFile == st.configFile
  {
    if script != [] {
      SessionWithoutMutation(st, script[..|script| - 1]);
    }
  }

  /** While the file never opens for writing, it keeps its old content. */
  lemma {:induction false} SessionReadOnlyKeepsFile(st: MenuState, script: seq<Input>)
    requires forall k | 0 <= k < |script| :: !script[k].os.configWritable
    ensures Session(st, script).configFile == st.configFile
  {
    if script != [] {
      SessionReadOnlyKeepsFile(st, script[..|script| - 1]);
    }
  }

  /** While the file opens for writing, a session in which input `k` changed
      the settings before any exit ends with the final settings saved, and
      with storable settings the next start-up loads exactly them. */
  lemma SessionSaves(st: MenuState, script: seq<Input>, k: nat, cwd: string)
    requires st.running
    requires forall j | 0 <= j < |script| :: script[j].os.configWritable
    requires k < |script| && Mutates(script[k].choice)
    requires forall j | 0 <= j < k :: script[j].choice != EXIT
    ensures Session(st, script).configFile == Some(Serialize(Session(st, script).settings))
    ensures Storable(Session(st, script).settings) ==>
      Load(Session(st, script).configFile, cwd) == Session(st, script).settings
  {
    SessionSavesFile(st, script, k);
    RoundTrip(Session(st, script).settings);
  }

  lemma {:induction false} SessionSavesFile(st: MenuState, script: seq<Input>, k: nat)
    requires st.running
    requires forall j | 0 <= j < |script| :: script[j].os.configWritable
    requires k < |script| && Mutates(script[k].choice)
    requires forall j | 0 <= j < k :: script[j].choice != EXIT
    ensures Session(st, script).configFile == Some(Serialize(Session(st, script).settings))
  {
    var p := script[..|script| - 1];
    assert forall j | 0 <= j < |p| :: p[j] == script[j];
    if k < |p| {
      SessionSavesFile(st, p, k);
    } else {
      SessionRunning(st, p);
    }
  }

  /** C's logical negation `!flag`. */
  function Toggle(flag: int): (r: int)
    ensures r == 0 || r == 1
    ensures r != 0 <==> flag == 0
  {
    if flag == 0 then 1 else 0
  }

  /** Toggling twice gives 0 for 0 and 1 for any other flag, so a flag that
      is 0 or 1 is restored. */
  lemma ToggleTwice(flag: int)
    ensures Toggle(Toggle(flag)) == if flag == 0 then 0 else 1
    ensures flag == 0 || flag == 1 ==> Toggle(Toggle(flag)) == flag
  {
  }

  /** `strcspn(s, "\n")`: the length of the part before the first newline. */
  function NewlineSpan(s: string): (n: nat)
    ensures n <= |s| && '\n' !in s[..n]
    ensures n < |s| ==> s[n] == '\n'
  {
    if s == [] || s[0] == '\n' then 0
    else
      var n := 1 + NewlineSpan(s[1..]);
      assert s[..n] == [s[0]] + s[1..][..n - 1];
      n
  }

  /** `s[strcspn(s, "\n")] = 0`: the string cut at its first newline. */
  function TrimNewline(s: string): (r: string)
    ensures |r| <= |s| && r == s[..|r|] && '\n' !in r
    ensures '\n' !in s ==> r == s
    ensures |r| < |s| ==> s[|r|] == '\n'
  {
    s[..NewlineSpan(s)]
  }

  /** `fgets(buf, MAX_PATH, stdin)`: at most `MAX_PATH - 1` characters, up to
      and including the first newline; `None` at the end of the input, when
      the buffer is left as it was. */
  function ReadLine(pending: string): (line: Option<string>)
    ensures line.None? <==> pending == []
    ensures line.Some? ==> 0 < |line.value| < MAX_PATH && |line.value| <= |pending|
    ensures line.Some? ==> line.value == pending[..|line.value|]
    ensures line.Some? ==> '\n' !in line.value[..|line.value| - 1]
    ensures line.Some? ==>
      line.value[|line.value| - 1] == '\n' || |line.value| == MAX_PATH - 1 || line.value == pending
  {
    if pending == [] then None
    else
      var n := NewlineSpan(pending);
      var k := if n < |pending| then n + 1 else n;
      var len := if k < MAX_PATH - 1 then k else MAX_PATH - 1;
      assert pending[..len][..len - 1] == pending[..len - 1];
      assert len - 1 <= n ==> pending[..len - 1] == pending[..n][..len - 1];
      Some(pending[..len])
  }

  /** The path option 4 makes current: the line typed, cut at its first
      newline and at `MAX_PATH - 1` characters; at the end of the input the
      current path, cut at its first newline. */
  function EnteredPath(pending: string, current: string): (p: string)
    ensures '\n' !in p
    ensures pending != [] ==> p == pending[..Min(NewlineSpan(pending), MAX_PATH - 1)]
    ensures pending == [] ==> p == TrimNewline(current)
    ensures |current| < MAX_PATH ==> |p| < MAX_PATH
  {
    match ReadLine(pending)
    case Some(line) =>
      var n := NewlineSpan(pending);
      var m := Min(n, MAX_PATH - 1);
      assert line[..m] == pending[..m];
      assert m < |line| ==> line[m] == '\n';
      assert '\n' !in line[..m] by {
        assert pending[..m] == pending[..n][..m];
      }
      TrimNewline(line)
    case None => TrimNewline(current)
  }

  function Min(a: int, b: int): int
  {
    if a < b then a else b
  }

  /** The state of `main`: the current path, the settings, whether the loop
      runs, and the configuration file the settings are saved to. */
  class Shell {
    var currentPath: string
    var settings: Settings
    var running: bool
    /** Content of the configuration file; `None` while it cannot be read. */
    var configFile: Option<string>

    /** The fields, as a value. */
    function State(): MenuState
      reads this
    {
      MenuState(currentPath, settings, running, configFile)
    }

    ghost predicate Valid()
      reads this
    {
      ValidState(State())
    }

    /** Start-up: load the settings from `config` (or fall back to `cwd`) and
        make their path current. */
    constructor (config: Option<string>, cwd: string)
      ensures State() == Startup(config, cwd)
      ensures Valid() && running
      ensures settings == Load(config, cwd) && configFile == config
    {
      var start := Startup(config, cwd);
      settings := start.settings;
      currentPath := start.currentPath;
      running := start.running;
      configFile := start.configFile;
      new;
      assert State() == start;
    }

    /** One pass through the body of the menu loop for `choice`. */
    method Step(choice: int, pending: string, os: Os) returns (out: Output)
      requires Valid() && running
      modifies this
      ensures Valid()
      ensures choice == SYSTEM_INFO ==> out == SystemInfoShown && unchanged(this)
      ensures choice == DRIVE_INFO ==>
        && out == DriveShown(DriveInfo(Lookup(os.volumes, currentPath)))
        && unchanged(this)
      ensures choice == LIST_DIRECTORY ==>
        && out == DirectoryShown(
             if currentPath in os.directories
             then Some(Listing(os.directories[currentPath], settings.showHiddenFiles))
             else None)
        && unchanged(this)
      ensures choice == CHANGE_DIRECTORY ==>
        && out == PathChanged && running
        && currentPath == EnteredPath(pending, old(currentPath))
        && settings == old(settings).(lastVisitedPath := currentPath)
        && configFile == Save(old(configFile), settings, os.configWritable)
      ensures choice == TOGGLE_HIDDEN ==>
        && out == HiddenToggled && running
        && currentPath == old(currentPath)
        && settings == old(settings).(showHiddenFiles := Toggle(old(settings).showHiddenFiles))
        && configFile == Save(old(configFile), settings, os.configWritable)
      ensures choice == EXIT ==>
        && out == Exited && !running
        && currentPath == old(currentPath) && settings == old(settings) && configFile == old(configFile)
      ensures !(1 <= choice <= 6) ==> out == InvalidOption && unchanged(this)
      ensures Mutates(choice) && os.configWritable ==> configFile == Some(Serialize(settings))
      ensures Mutates(choice) && os.configWritable && Storable(settings) ==>
        forall cwd :: Load(configFile, cwd) == settings
      ensures State() == Next(old(State()), Input(choice, pending, os))
    {
      if choice == SYSTEM_INFO {
        out := SystemInfoShown;
      } else if choice == DRIVE_INFO {
        out := DriveShown(DriveInfo(Lookup(os.volumes, currentPath)));
      } else if choice == LIST_DIRECTORY {
        var rows := ListDirectory(Lookup(os.directories, currentPath), settings.showHiddenFiles);
        out := DirectoryShown(rows);
      } else if choice == CHANGE_DIRECTORY {
        currentPath := EnteredPath(pending, currentPath);
        settings := settings.(lastVisitedPath := currentPath);
        SaveSettings(os.configWritable);
        out := PathChanged;
      } else if choice == TOGGLE_HIDDEN {
        settings := settings.(showHiddenFiles := Toggle(settings.showHiddenFiles));
        SaveSettings(os.configWritable);
        out := HiddenToggled;
      } else if choice == EXIT {
        running := false;
        out := Exited;
      } else {
        out := InvalidOption;
      }
    }

    /** `save_settings(&settings)`. */
    method SaveSettings(writable: bool)
      modifies this`configFile
      ensures configFile == Save(old(configFile), settings, writable)
      ensures writable ==> configFile == Some(Serialize(settings))
      ensures writable && Storable(settings) ==> forall cwd :: Load(configFile, cwd) == settings
    {
      configFile := Save(configFile, settings, writable);
      forall cwd
        ensures writable && Storable(settings) ==> Load(configFile, cwd) == settings
      {
        LoadAfterSave(old(configFile), settings, writable, cwd);
      }
    }

    /** `while (running)`: runs the menu over `script` until the exit choice
        or the end of the script. */
    method Run(script: seq<Input>) returns (outputs: seq<Output>)
      requires Valid() && running
      modifies this
      ensures Valid()
      ensures State() == Session(old(State()), script)
      ensures |outputs| <= |script|
      ensures running <==> forall k | 0 <= k < |script| :: script[k].choice != EXIT
      ensures running ==> |outputs| == |script|
      ensures !running ==>
        && |outputs| > 0 && script[|outputs| - 1].choice == EXIT && outputs[|outputs| - 1] == Exited
        && forall k | 0 <= k < |outputs| - 1 :: script[k].choice != EXIT
      ensures (forall k | 0 <= k < |outputs| :: !Mutates(script[k].choice)) ==>
        currentPath == old(currentPath) && settings == old(settings) && configFile == old(configFile)
      ensures (forall k | 0 <= k < |script| :: !script[k].os.configWritable) ==>
        configFile == old(configFile)
      ensures
        && (forall k | 0 <= k < |script| :: script[k].os.configWritable)
        && (exists k | 0 <= k < |outputs| :: Mutates(script[k].choice))
        ==> configFile == Some(Serialize(settings))
    {
      outputs := [];
      var i := 0;
      while running && i < |script|
        invariant Valid()
        invariant 0 <= i <= |script| && |outputs| == i
        invariant State() == Session(old(State()), script[..i])
        invariant running <==> forall k | 0 <= k < i :: script[k].choice != EXIT
        invariant !running ==>
          && i > 0 && script[i - 1].choice == EXIT && outputs[i - 1] == Exited
          && forall k | 0 <= k < i - 1 :: script[k].choice != EXIT
      {
        assert script[..i + 1][..i] == script[..i];
        var out := Step(script[i].choice, script[i].pending, script[i].os);
        outputs := outputs + [out];
        i := i + 1;
      }
      SessionOutcome(old(State()), script, i);
    }
  }
}
