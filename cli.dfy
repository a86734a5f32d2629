/**
 * The command-line flags of the server binary (server/src/main.rs): a linear
 * scan of all arguments, the program name included, in which the first
 * argument that settles the value wins.
 */
module Cli {
  import opened Wrappers
  import opened Text

  const LOG_LEVEL_FLAG: string := "--log-level"
  const LOG_LEVEL_PREFIX: string := "--log-level="
  const LOG_FILE_FLAG: string := "--log-file"
  const LOG_FILE_PREFIX: string := "--log-file="

  // ---------------------------------------------------------------- --log-level

  /**
   * What argument `i` says about the log level: the next argument after a bare
   * `--log-level` that has one, or the text after `--log-level=`.
   */
  function LevelAt(args: seq<string>, i: nat): Option<string>
    requires i < |args|
  {
    if args[i] == LOG_LEVEL_FLAG && i + 1 < |args| then Some(args[i + 1])
    else if HasPrefix(args[i], LOG_LEVEL_PREFIX) then Some(args[i][|LOG_LEVEL_PREFIX|..])
    else None
  }

  /** The scan of `parse_log_level` from argument `i` on. */
  function LogLevelFrom(args: seq<string>, i: nat): string
    requires i <= |args|
    decreases |args| - i
  {
    if i == |args| then "info"
    else match LevelAt(args, i)
      case Some(level) => level
      case None => LogLevelFrom(args, i + 1)
  }

  /** `parse_log_level`. */
  function ParseLogLevel(args: seq<string>): string {
    LogLevelFrom(args, 0)
  }

  /** The first argument that names a level decides it. */
  lemma {:induction false} FirstLevelWins(args: seq<string>, k: nat)
    requires k < |args| && LevelAt(args, k).Some?
    requires forall j :: 0 <= j < k ==> LevelAt(args, j).None?
    ensures ParseLogLevel(args) == LevelAt(args, k).value
  {
    LevelFromFirst(args, 0, k);
  }

  lemma {:induction false} LevelFromFirst(args: seq<string>, i: nat, k: nat)
    requires i <= k < |args| && LevelAt(args, k).Some?
    requires forall j :: i <= j < k ==> LevelAt(args, j).None?
    ensures LogLevelFrom(args, i) == LevelAt(args, k).value
    decreases k - i
  {
    if i < k {
      LevelFromFirst(args, i + 1, k);
    }
  }

  /** With no argument naming a level, the level is `info`. */
  lemma {:induction false} DefaultLevel(args: seq<string>)
    requires forall j :: 0 <= j < |args| ==> LevelAt(args, j).None?
    ensures ParseLogLevel(args) == "info"
  {
    DefaultLevelFrom(args, 0);
  }

  lemma {:induction false} DefaultLevelFrom(args: seq<string>, i: nat)
    requires i <= |args|
    requires forall j :: i <= j < |args| ==> LevelAt(args, j).None?
    ensures LogLevelFrom(args, i) == "info"
    decreases |args| - i
  {
    if i < |args| {
      DefaultLevelFrom(args, i + 1);
    }
  }

  /** A bare `--log-level` in last position names nothing, and the scan goes on past it. */
  lemma TrailingLevelFlag(args: seq<string>)
    requires args != [] && args[|args| - 1] == LOG_LEVEL_FLAG
    ensures LevelAt(args, |args| - 1).None?
  {
  }

  // ---------------------------------------------------------------- --log-file

  /**
   * What argument `i` says about the log file: a bare `--log-file` settles it
   * as the next argument, or as none when it is the last; `--log-file=` as the
   * text after it. `None` means argument `i` settles nothing.
   */
  function FileAt(args: seq<string>, i: nat): Option<Option<string>>
    requires i < |args|
  {
    if args[i] == LOG_FILE_FLAG then Some(if i + 1 < |args| then Some(args[i + 1]) else None)
    else if HasPrefix(args[i], LOG_FILE_PREFIX) then Some(Some(args[i][|LOG_FILE_PREFIX|..]))
    else None
  }

  function LogFileFrom(args: seq<string>, i: nat): Option<string>
    requires i <= |args|
    decreases |args| - i
  {
    if i == |args| then None
    else match FileAt(args, i)
      case Some(file) => file
      case None => LogFileFrom(args, i + 1)
  }

  /** `parse_log_file`. */
  function ParseLogFile(args: seq<string>): Option<string> {
    LogFileFrom(args, 0)
  }

  /** The first argument that mentions the log file decides it. */
  lemma {:induction false} FirstFileWins(args: seq<string>, k: nat)
    requires k < |args| && FileAt(args, k).Some?
    requires forall j :: 0 <= j < k ==> FileAt(args, j).None?
    ensures ParseLogFile(args) == FileAt(args, k).value
  {
    FileFromFirst(args, 0, k);
  }

  lemma {:induction false} FileFromFirst(args: seq<string>, i: nat, k: nat)
    requires i <= k < |args| && FileAt(args, k).Some?
    requires forall j :: i <= j < k ==> FileAt(args, j).None?
    ensures LogFileFrom(args, i) == FileAt(args, k).value
    decreases k - i
  {
    if i < k {
      FileFromFirst(args, i + 1, k);
    }
  }

  /** A bare `--log-file` as the first mention and the last argument gives no file. */
  lemma {:induction false} TrailingFileFlag(args: seq<string>)
    requires args != [] && args[|args| - 1] == LOG_FILE_FLAG
    requires forall j :: 0 <= j < |args| - 1 ==> FileAt(args, j).None?
    ensures ParseLogFile(args).None?
  {
    FirstFileWins(args, |args| - 1);
  }

  /** With no mention of the log file there is none. */
  lemma {:induction false} NoLogFile(args: seq<string>)
    requires forall j :: 0 <= j < |args| ==> FileAt(args, j).None?
    ensures ParseLogFile(args).None?
  {
    NoFileFrom(args, 0);
  }

  lemma {:induction false} NoFileFrom(args: seq<string>, i: nat)
    requires i <= |args|
    requires forall j :: i <= j < |args| ==> FileAt(args, j).None?
    ensures LogFileFrom(args, i).None?
    decreases |args| - i
  {
    if i < |args| {
      NoFileFrom(args, i + 1);
    }
  }

  /** The program name is scanned too: `--log-file=x` in position 0 is honoured. */
  lemma ProgramNameScanned(path: string, rest: seq<string>)
    ensures ParseLogFile([LOG_FILE_PREFIX + path] + rest) == Some(path)
  {
    var args := [LOG_FILE_PREFIX + path] + rest;
    assert args[0][..|LOG_FILE_PREFIX|] == LOG_FILE_PREFIX;
    assert args[0][|LOG_FILE_PREFIX|..] == path;
  }
}
