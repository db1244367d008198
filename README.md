# sysinfo tool: a Dafny model of its settings, listing, volume and menu logic

The system-information tool is an interactive C program (`main.c`). It
persists two preferences in `$HOME/.sysinfo.conf`: the last visited
directory and whether dotfiles are listed. It reports the capacity of the
volume that holds the current path, lists the current directory, and runs a
six-choice menu that changes and saves those preferences. This project
models the parts of it whose behaviour can be stated. Every result of the
operating system is an input to the model:

- the text of the configuration file is an `Option<string>`, where `None`
  means it cannot be opened for reading (missing, or not readable); a
  successful save makes it `Some` of the saved text;
- whether it opens for writing is a `bool`;
- the working directory is a `string`;
- a `statvfs` result is a `StatVfs` of 64-bit block counts;
- a directory's enumeration is a sequence of `DirEntry` values, each a name
  plus the outcome of `stat` on it;
- what the user types at the path prompt is the text pending on standard
  input.

A `string` stands for the bytes of a C string, one `char` per byte, so
every length and bound in the model counts bytes, as C does. This covers
the `char[MAX_PATH]` buffers, the field width 4095, the `fgets` limit and
whether `getcwd` fits.

Modules, in dependency order:

- `Options` (`options.dfy`): `Option` and map lookup.
- `StdioFormat` (`stdio_format.dfy`): the C library behaviour the
  configuration format depends on. This covers `isspace`, the `%s` and `%d`
  conversions of `fscanf`, and `%d` of `fprintf`. The main result is that
  `%d` reads back what `%d` printed.
- `SettingsStore` (`settings_store.dfy`): `Settings`, the file text
  (`Serialize`), its parsing (`ScanSettings`), `Load` and `Save`. The
  round trip holds exactly for the settings the format can carry.
- `VolumeReport` (`volume_report.dfy`): the byte products of the drive
  report, with `unsigned long` wrap-around written out.
- `DirectoryLister` (`directory_lister.dfy`): `ListDirectory` is the
  `readdir` loop, proved equal to the specification function `Listing`.
  Lemmas cover order, membership, the dotfile rule and skipped `stat`
  failures.
- `InteractiveShell` (`interactive_shell.dfy`): the `Shell` class holds
  `main`'s state. That is the current path, the settings, `running` and the
  configuration file's content. `Step` is one pass of the menu loop and
  `Run` is the `while (running)` loop. Each keeps `Valid()`: the current
  path is the last visited path and fits its `MAX_PATH` buffer. The
  function `Next` is one pass on a `MenuState` value, and `Session` folds
  it over the inputs for as long as the loop runs. `Step` is proved equal to
  `Next` and `Run` to `Session`, and the lemmas about `Session` state what
  a whole session does to the settings and the file. Each input carries its
  own answers from the operating system, so the file may be writable at one
  step and not at the next.

Behaviour of the code that a reader might not expect:

- A malformed configuration file does not fall back to defaults. Whatever
  `fscanf` converted is kept, and an unconverted field stays zero.
- The hidden-files flag is a C `int`, not a boolean.
- A failed `statvfs` prints nothing.
- Toggling twice restores the flag only when it was 0 or 1.

## Model

| member | source | states |
|---|---|---|
| `StdioFormat.SkipSpace` | main.c:28 | the white space consumed before `%s` and `%d` is exactly the leading run of `isspace` characters; what is left starts with a non-space or is empty |
| `StdioFormat.TokenLength` | main.c:28 | `%s` stores a run of non-white-space characters that ends at white space, at the end of the input or at the field width |
| `StdioFormat.ScanString` | main.c:28 | `%s` fails exactly on input that is all white space; otherwise it stores a non-empty token of at most `width` non-space characters, and the skipped input is the token followed by the unread rest |
| `StdioFormat.DigitCount` | main.c:28 | the digits `%d` takes are the longest run of decimal digits |
| `StdioFormat.ScanSignedDigits` | main.c:28 | `%d` fails exactly when no digit follows the optional sign; otherwise the unread rest is a shorter suffix that does not start with a digit |
| `StdioFormat.ScanDecimal` | main.c:28 | `%d` after white space leaves a shorter rest that does not start with a digit |
| `StdioFormat.FormatNat` | main.c:43 | `%d` of a non-negative value prints a non-empty run of digits with no leading zero |
| `StdioFormat.FormatInt` | main.c:43 | `%d` prints no white space, and prints only digits exactly when the value is not negative |
| `StdioFormat.DigitsValueOfFormatNat` | main.c:43 | the digits printed for a value have that value |
| `StdioFormat.ScanDecimalOfFormatInt` | main.c:28-43 | `%d` reads back any integer `%d` printed, when no digit follows it |
| `StdioFormat.ScanStringOfWord` | main.c:28 | `%s` stores a word that fits the width whole and leaves the white space after it unread |
| `SettingsStore.ScanSettingsWithin` | main.c:28 | parsing into the zeroed settings gives a path without white space that fits the width; a file that is all white space leaves the settings zeroed |
| `SettingsStore.ScanSettingsAsWritten` | main.c:28 | the format as written stores a path with no white space and no length bound |
| `SettingsStore.ScanSettings` | main.c:28 | the format with a field width of 4095 always loads a path that fits `char[MAX_PATH]` |
| `SettingsStore.Getcwd` | main.c:31 | the fallback path is the working directory when it fits the buffer, and always fits it |
| `SettingsStore.Load` | main.c:21-34 | the loaded path always fits the buffer; without a readable file the flag is 0 and the path is the working directory |
| `SettingsStore.Save` | main.c:37-46 | a file that cannot be opened for writing is left unchanged and no error is raised; a successful save leaves text whose path reads back non-empty |
| `SettingsStore.ScanSerializedIsNotEmpty` | main.c:28-43 | saved text always holds a token, so the path read back is never empty |
| `SettingsStore.RoundTrip` | main.c:28-43 | loading the saved text gives back the settings exactly when the path is non-empty, has no white space and is shorter than `MAX_PATH`, whatever the flag |
| `SettingsStore.LoadAfterSave` | main.c:21-46 | a successful save of such settings is what the next load returns; a failed save leaves the next load as it was |
| `SettingsStore.EmptyPathIsNotRestored` | main.c:28-43 | an empty path comes back as the flag's printed digits, with the flag 0, for every flag whose digits fit the field width |
| `SettingsStore.PathWithBlankIsCut` | main.c:28-43 | a path whose first blank follows the word `w` comes back as `w`; the flag is then whatever `%d` reads from the text after the blank, or 0 when it reads nothing |
| `SettingsStore.BlankLosesFlag` | main.c:28-43 | `"My Documents"` with flag 1 comes back as `"My"` with flag 0, because `Documents` stops `%d` |
| `SettingsStore.BlankCanReplaceFlag` | main.c:28-43 | a path made of a word, a blank and an integer `n` comes back as the word with flag `n`, whatever flag was saved |
| `SettingsStore.OversizedTokenOverflows` | main.c:28 | the format as written stores a token of `MAX_PATH` or more characters whole, but the 4095 width stores exactly 4095 of them |
| `SettingsStore.LongConfigOverflows` | main.c:16-28 | a file of 4096 non-blank characters makes the format as written store 4096 characters into a buffer that holds 4095 and a NUL |
| `VolumeReport.MulULong` | main.c:76-78 | an `unsigned long` product is exact when it fits 64 bits and wraps to something smaller otherwise |
| `VolumeReport.DriveInfo` | main.c:72-80 | a report exists exactly when `statvfs` succeeds; its total, free and available bytes are the block, free-block and available-block counts each times the fragment size, as `unsigned long` products |
| `VolumeReport.BytesOrdered` | main.c:76-78 | with no wrap-around the three counts are the exact products, and available ≤ free ≤ total follows from the system's promise on block counts |
| `VolumeReport.ReportExample` | main.c:76-78 | 1000, 400 and 350 blocks of 4096 bytes give 4096000, 1638400 and 1433600 bytes |
| `DirectoryLister.RowsOf` | main.c:100-110 | an entry is printed exactly when its `stat` succeeds and it is not a dotfile while dotfiles are off; the row carries its name, size and type |
| `DirectoryLister.ListDirectory` | main.c:83-114 | the `readdir` loop prints exactly `Listing` of the enumeration; nothing is listed when `opendir` fails |
| `DirectoryLister.ListingSnoc` | main.c:99-111 | each further entry adds its row at the end of the listing |
| `DirectoryLister.ListingAppend` | main.c:99-111 | the listing of two runs of entries is the first listing followed by the second, so enumeration order is kept |
| `DirectoryLister.StatFailureSkipped` | main.c:105-111 | an entry whose `stat` fails adds nothing and the listing goes on |
| `DirectoryLister.ListingMembership` | main.c:99-111 | a row is listed exactly when some enumerated entry contributes it |
| `DirectoryLister.NoHiddenRowsWhenOff` | main.c:100-102 | with dotfiles off no listed name starts with a dot, so `.` and `..` are not listed |
| `DirectoryLister.ShownWhenOn` | main.c:100-110 | with dotfiles on, every entry whose `stat` succeeds is listed with its size and type |
| `DirectoryLister.Visible` | main.c:100 | the entries kept when dotfiles are off have no name starting with a dot |
| `DirectoryLister.HidingRemovesExactlyDotfiles` | main.c:100-102 | listing with dotfiles off equals listing only the entries that are not dotfiles with dotfiles on |
| `DirectoryLister.ListingOfFour` | main.c:99-111 | four entries are listed one after the other, in order |
| `DirectoryLister.HiddenExample` | main.c:99-111 | `.a`, `b`, `.c`, `d` list as `b`, `d` with dotfiles off and as all four in order with dotfiles on |
| `InteractiveShell.Toggle` | main.c:154 | `!flag` is always 0 or 1, and is 1 exactly when the flag was 0 |
| `InteractiveShell.ToggleTwice` | main.c:154 | toggling twice normalises the flag to 0 or 1, and so restores a 0/1 flag |
| `InteractiveShell.NewlineSpan` | main.c:149 | `strcspn(s, "\n")` is the length of the part before the first newline |
| `InteractiveShell.TrimNewline` | main.c:149 | the trimmed path is a prefix without newline, the whole string when it has none, and otherwise stops at the first newline |
| `InteractiveShell.ReadLine` | main.c:148 | `fgets` yields nothing only at the end of input; otherwise a non-empty prefix shorter than `MAX_PATH`, with a newline at most at its end, that stops at the newline, the size limit or the end of the input |
| `InteractiveShell.EnteredPath` | main.c:146-150 | the new path has no newline, is the typed text cut at its first newline and at 4095 characters, and is the trimmed old path at the end of input |
| `InteractiveShell.Shell.constructor` | main.c:116-120 | start-up loads the settings, makes their path current and runs, with the path fitting its buffer; the fields are `Startup` of the file and the working directory |
| `InteractiveShell.Shell.SaveSettings` | main.c:37-46 | the file becomes `Save` of the current settings; when writable it holds their text, and storable settings load back from it whatever the working directory |
| `InteractiveShell.Startup` | main.c:116-119 | the first state holds the loaded settings, makes their path current within its buffer, and starts the loop running |
| `InteractiveShell.Next` | main.c:136-162 | one pass keeps the current path equal to the last visited path and inside its buffer. Choices 4 and 5 leave the file holding the new settings when it opens for writing. Every other choice leaves the path, the settings and the file as they were. The loop goes on running exactly when it was running and the choice is not 6 |
| `InteractiveShell.SessionRunning` | main.c:121-158 | the loop runs after a session exactly when it ran before and no input chose 6 |
| `InteractiveShell.SessionStopped` | main.c:121-158 | once choice 6 has stopped the loop, later input changes nothing |
| `InteractiveShell.SessionValid` | main.c:117-158 | every session keeps the current path equal to the last visited path and inside its buffer |
| `InteractiveShell.SessionWithoutMutation` | main.c:121-162 | a session without choice 4 or 5 leaves the path, the settings and the file as they were |
| `InteractiveShell.SessionReadOnlyKeepsFile` | main.c:150-154 | while the file never opens for writing, its content stays as it was |
| `InteractiveShell.SessionSaves` | main.c:144-154 | while the file opens for writing, a session with a choice 4 or 5 before any exit ends with the final settings in the file. With storable settings, loading that text gives exactly them back |
| `InteractiveShell.Shell.Step` | main.c:132-162 | choices 1-3 change nothing, and 2 and 3 report on the current path with the current flag. Choice 4 puts the entered path in both path fields and saves. Choice 5 toggles the flag and saves. Choice 6 stops the loop. Any other choice changes nothing. `Valid()` is kept. A successful save leaves the file holding the new settings' text, and storable settings load back from it whatever the working directory. The new state is `Next` of the old one |
| `InteractiveShell.Shell.Run` | main.c:120-163 | the final fields are `Session` of the initial ones over the script. The loop stops exactly at the first exit choice. While no choice 4 or 5 has run, the path, the settings and the file are untouched. An unwritable file keeps its content. When the file is writable throughout and a choice 4 or 5 ran, it holds the final settings |

## Left out

- `display_system_info` (`uname`, `time`, `localtime`, `strftime`): calls into the operating system and locale-dependent formatting. Choice 1 yields only `SystemInfoShown`.
- The conversion to gigabytes in single-precision floating point, and all `printf` output of the menu, tables and reports: console formatting.
- `getenv("HOME")` and the `snprintf` that builds the configuration path. The file is an abstract input, so a missing `HOME` is not modelled.
- The `snprintf` of each entry's full path and its truncation. The outcome of `stat` is part of each `DirEntry`.
- `scanf("%d")` and `getchar()` on the menu choice. The choice is an already-parsed integer, and non-numeric input is undefined behaviour in the source.
- How the menu's reads consume standard input from one step to the next. Each `Input` carries the text pending at its own path prompt.
- `Run` also stops at the end of its script. There the source waits for more input, or at the end of input reads an indeterminate choice.
- Characters above 255: the types do not restrict a `char` to one byte. A path of multi-byte characters must be given as its bytes for the length bounds to hold.
- NUL characters in the configuration file or in a typed path: the model treats them as ordinary characters, not as string terminators.
- `fgets` read errors, as distinct from end of input, leave the buffer indeterminate. Only end of input is modelled.
- A `getcwd` failure other than a too-long working directory.
- A `fprintf` that fails after `fopen` succeeded.
- Other processes writing the configuration file.
- A configuration file that opens for writing but not for reading (mode 0200, say). The model takes the text a successful save leaves to be readable at the next start-up. The source would fail its `fopen` for reading there and fall back to the working directory with the flag 0. `LoadAfterSave`, `SessionSaves`, `Shell.SaveSettings` and `Shell.Step` therefore speak of loading the saved text, not of what a start-up with an unreadable file does.
- `StdioFormat.ScanSignedDigits`: reads the exact integer, while a `%d` value outside the 32-bit `int` range is undefined behaviour in C. The flag is an unbounded `int` throughout.
- `SettingsStore.Load`: reads the path with a field width of 4095 (see Findings), not with the source's unbounded `%s`.
- `VolumeReport.BytesOrdered`: assumes the total does not wrap. `unsigned long` is taken to be 64 bits wide, as on LP64 systems.

## Findings

| source | as written | input that shows it | evidently intended | confidence | as-written member | corrected member |
|---|---|---|---|---|---|---|
| main.c:28 | the path is read with `%s` and no field width into `char last_visited_path[4096]` | a configuration file holding 4096 non-blank characters: all 4096 are stored, and the terminating NUL lands outside the buffer (`SettingsStore.LongConfigOverflows`, `SettingsStore.OversizedTokenOverflows`) | a field width of `MAX_PATH - 1` (`%4095s`), so that the loaded path always fits, as the path-length invariant of the settings requires | high; not executed | `SettingsStore.ScanSettingsAsWritten` | `SettingsStore.ScanSettings` |
