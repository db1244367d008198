/**
 * The settings store of the system-information tool: the two persisted
 * preferences, the two-token text of `$HOME/.sysinfo.conf`, and what
 * `load_settings` and `save_settings` make of it.
 */
module SettingsStore {
  import opened Options
  import opened StdioFormat

  /** Size of every path buffer, terminating NUL included. */
  const MAX_PATH: nat := 4096

  /** The field width that keeps a scanned path inside a `MAX_PATH` buffer. */
  const PATH_WIDTH: nat := MAX_PATH - 1

  /** `AppSettings`: the last visited directory and the C `int` that says
      whether dotfiles are listed. */
  datatype Settings = Settings(lastVisitedPath: string, showHiddenFiles: int)

  /** The zero-initialised `AppSettings` that loading starts from. */
  const Zeroed := Settings("", 0)

  /** What `fprintf(fp, "%s\n%d", path, flag)` writes. */
  function Serialize(s: Settings): string
  {
    s.lastVisitedPath + "\n" + FormatInt(s.showHiddenFiles)
  }

  /** `fscanf(fp, "%<width>s\n%d", path, &flag)` into the zeroed settings: a
      field that is not converted keeps its zero value. */
  function ScanSettingsWithin(text: string, width: nat): (s: Settings)
    requires width > 0
    ensures |s.lastVisitedPath| <= width && NoSpace(s.lastVisitedPath)
    ensures SkipSpace(text) == [] ==> s == Zeroed
  {
    var path := ScanString(text, width);
    if path.None? then Zeroed
    else
      var flag := ScanDecimal(path.value.1);
      Settings(path.value.0, if flag.Some? then flag.value.0 else 0)
  }

  /** The format as written, `"%s\n%d"`: a `%s` without a field width stores
      the whole first token, however long; no token is longer than the text. */
  function ScanSettingsAsWritten(text: string): (s: Settings)
    ensures NoSpace(s.lastVisitedPath)
  {
    ScanSettingsWithin(text, |text| + 1)
  }

  /** The format with the width that fits the buffer, `"%4095s\n%d"`. */
  function ScanSettings(text: string): (s: Settings)
    ensures |s.lastVisitedPath| < MAX_PATH && NoSpace(s.lastVisitedPath)
  {
    ScanSettingsWithin(text, PATH_WIDTH)
  }

  /** What `getcwd(buf, MAX_PATH)` leaves in the zeroed buffer: the working
      directory when it fits, and nothing when the call fails with ERANGE. */
  function Getcwd(cwd: string): (r: string)
    ensures |r| < MAX_PATH
    ensures |cwd| < MAX_PATH ==> r == cwd
  {
    if |cwd| < MAX_PATH then cwd else ""
  }

  /** `load_settings`: `config` is the text of the configuration file, or
      `None` when it cannot be opened for reading; `cwd` is the working
      directory. */
  function Load(config: Option<string>, cwd: string): (s: Settings)
    ensures |s.lastVisitedPath| < MAX_PATH
    ensures config.None? ==> s.showHiddenFiles == 0 && (|cwd| < MAX_PATH ==> s.lastVisitedPath == cwd)
  {
    match config
    case None => Settings(Getcwd(cwd), 0)
    case Some(text) => ScanSettings(text)
  }

  /** `save_settings`: the new content of the configuration file, which stays
      as it was when the file cannot be opened for writing. */
  function Save(file: Option<string>, s: Settings, writable: bool): (r: Option<string>)
    ensures !writable ==> r == file
    ensures writable ==> r.Some? && ScanSettings(r.value).lastVisitedPath != []
  {
    if writable then
      ScanSerializedIsNotEmpty(s);
      Some(Serialize(s))
    else file
  }

  /** The settings the file format can carry: a path that is not empty, holds
      no white space and fits its buffer. The flag may be any integer. */
  predicate Storable(s: Settings)
  {
    s.lastVisitedPath != [] && NoSpace(s.lastVisitedPath) && |s.lastVisitedPath| < MAX_PATH
  }

  /** Saved text always holds a token, so a path read back from it is never
      empty. */
  lemma ScanSerializedIsNotEmpty(s: Settings)
    ensures ScanSettings(Serialize(s)).lastVisitedPath != []
  {
    var p, f := s.lastVisitedPath, FormatInt(s.showHiddenFiles);
    var text := Serialize(s);
    assert text[|p| + 1] == f[0];
    assert SkipSpace(text) != [];
  }

  /** The path of storable settings is the first token of their text. */
  lemma ScanSerializedPath(s: Settings, width: nat)
    requires Storable(s) && |s.lastVisitedPath| <= width
    ensures ScanString(Serialize(s), width)
         == Some((s.lastVisitedPath, "\n" + FormatInt(s.showHiddenFiles)))
  {
    var p, f := s.lastVisitedPath, FormatInt(s.showHiddenFiles);
    assert Serialize(s) == p + ("\n" + f);
    ScanStringOfWord(p, "\n" + f, width);
  }

  /** The line that follows the path reads back as the flag. */
  lemma ScanSerializedFlag(flag: int)
    ensures ScanDecimal("\n" + FormatInt(flag)) == Some((flag, []))
  {
    var f := FormatInt(flag);
    ScanDecimalSkipsSpace('\n', f);
    assert f + [] == f;
    ScanDecimalOfFormatInt(flag, []);
  }

  /** The text of storable settings, read with any width that holds the path,
      gives back the same settings. */
  lemma ScanWithinSerialized(s: Settings, width: nat)
    requires Storable(s) && |s.lastVisitedPath| <= width
    ensures ScanSettingsWithin(Serialize(s), width) == s
  {
    ScanSerializedPath(s, width);
    ScanSerializedFlag(s.showHiddenFiles);
  }

  /** Loading what was saved gives back exactly the saved settings, and does
      so for no other settings. */
  lemma RoundTrip(s: Settings)
    ensures ScanSettings(Serialize(s)) == s <==> Storable(s)
  {
    if Storable(s) {
      ScanWithinSerialized(s, PATH_WIDTH);
    } else {
      ScanSerializedIsNotEmpty(s);
    }
  }

  /** A save that succeeds is read back by the next load; one that fails
      leaves the next load as it would have been. */
  lemma LoadAfterSave(file: Option<string>, s: Settings, writable: bool, cwd: string)
    ensures writable && Storable(s) ==> Load(Save(file, s, writable), cwd) == s
    ensures !writable ==> Load(Save(file, s, writable), cwd) == Load(file, cwd)
  {
    if writable && Storable(s) {
      RoundTrip(s);
    }
  }

  /** An empty path is saved as a line break before the flag, so the flag's
      digits are read back as the path and the flag itself as 0. */
  lemma EmptyPathIsNotRestored(flag: int)
    requires |FormatInt(flag)| <= PATH_WIDTH
    ensures ScanSettings(Serialize(Settings("", flag))) == Settings(FormatInt(flag), 0)
  {
    var f := FormatInt(flag);
    var text := Serialize(Settings("", flag));
    assert text == "\n" + f && text[1..] == f + [];
    assert SkipSpace(text) == SkipSpace(f + []);
    ScanStringOfWord(f, [], PATH_WIDTH);
  }

  /** A path whose first blank follows the word `w` is cut to `w`; `%d` then
      reads the flag from what follows the blank, so the flag survives only
      when that text happens to start with an integer. */
  lemma PathWithBlankIsCut(w: string, rest: string, flag: int)
    requires w != [] && NoSpace(w) && |w| <= PATH_WIDTH
    requires rest != [] && IsSpace(rest[0])
    ensures ScanSettings(Serialize(Settings(w + rest, flag))).lastVisitedPath == w
    ensures ScanSettings(Serialize(Settings(w + rest, flag))).showHiddenFiles
         == match ScanDecimal(rest + "\n" + FormatInt(flag))
            case Some((n, _)) => n
            case None => 0
  {
    var tail := rest + "\n" + FormatInt(flag);
    SerializeSplits(w, rest, flag);
    ScanSettingsOfWord(w, tail);
  }

  /** Regroups the saved text around the blank; a separate step keeps the
      proof above within the solver's budget. */
  lemma SerializeSplits(w: string, rest: string, flag: int)
    ensures Serialize(Settings(w + rest, flag)) == w + (rest + "\n" + FormatInt(flag))
  {
  }

  /** A word followed by white space is read as the path, and `%d` goes on
      from the white space. */
  lemma ScanSettingsOfWord(w: string, tail: string)
    requires w != [] && NoSpace(w) && |w| <= PATH_WIDTH
    requires tail != [] && IsSpace(tail[0])
    ensures ScanSettings(w + tail).lastVisitedPath == w
    ensures ScanSettings(w + tail).showHiddenFiles
         == match ScanDecimal(tail)
            case Some((n, _)) => n
            case None => 0
  {
    ScanStringOfWord(w, tail, PATH_WIDTH);
  }

  /** A path made of a word, a blank and a second word that starts with
      neither a sign nor a digit (`"My Documents"`) is cut to the first
      word, and the second stops the flag from being read, so it comes back
      as 0. */
  lemma BlankLosesFlag(w: string, v: string, flag: int)
    requires w != [] && NoSpace(w) && |w| <= PATH_WIDTH
    requires v != [] && !IsSpace(v[0]) && !IsDigit(v[0]) && v[0] != '-' && v[0] != '+'
    ensures ScanSettings(Serialize(Settings(w + " " + v, flag))) == Settings(w, 0)
  {
    var after := "\n" + FormatInt(flag);
    var rest := " " + v;
    assert w + " " + v == w + rest;
    PathWithBlankIsCut(w, rest, flag);
    Regroup(v, FormatInt(flag));
    ScanDecimalSkipsSpace(' ', v + after);
    NoDecimalBefore(v + after);
  }

  /** `%d` fails on input that starts with neither white space, a sign nor
      a digit. */
  lemma NoDecimalBefore(t: string)
    requires t != [] && !IsSpace(t[0]) && !IsDigit(t[0]) && t[0] != '-' && t[0] != '+'
    ensures ScanDecimal(t) == None
  {
    SkipSpaceOfWord(t);
  }

  /** A path made of a word, a blank and an integer is cut to the word, and
      the integer is read as the flag in place of the saved one. */
  lemma BlankCanReplaceFlag(w: string, n: int, flag: int)
    requires w != [] && NoSpace(w) && |w| <= PATH_WIDTH
    ensures ScanSettings(Serialize(Settings(w + " " + FormatInt(n), flag))) == Settings(w, n)
  {
    var after := "\n" + FormatInt(flag);
    var rest := " " + FormatInt(n);
    assert w + " " + FormatInt(n) == w + rest;
    PathWithBlankIsCut(w, rest, flag);
    Regroup(FormatInt(n), FormatInt(flag));
    ScanDecimalSkipsSpace(' ', FormatInt(n) + after);
    ScanDecimalOfFormatInt(n, after);
  }

  /** Regroups the text after the blank; a separate step over plain strings
      keeps the solver from unfolding `FormatInt`. */
  lemma Regroup(f: string, g: string)
    ensures " " + f + "\n" + g == [' '] + (f + ("\n" + g))
  {
  }

  /** The format as written stores a first token of `MAX_PATH` characters or
      more whole, although the buffer holds at most `MAX_PATH - 1` of them. */
  lemma OversizedTokenOverflows(text: string)
    requires NoSpace(text) && |text| >= MAX_PATH
    ensures |ScanSettingsAsWritten(text).lastVisitedPath| == |text| >= MAX_PATH
    ensures |ScanSettings(text).lastVisitedPath| == PATH_WIDTH
  {
    ScanStringOfLongWord(text, |text|);
    ScanStringOfLongWord(text, PATH_WIDTH);
  }

  /** A configuration file of 4096 `a`s, no line break and no flag. */
  lemma LongConfigOverflows()
    ensures |ScanSettingsAsWritten(seq(4096, _ => 'a')).lastVisitedPath| == 4096
  {
    OversizedTokenOverflows(seq(4096, _ => 'a'));
  }
}
