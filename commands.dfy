/** The command-loading loop at the start of Shard.init: every file getFiles
    discovers under "./commands/" is handed to handler.load in turn; a load
    that throws is logged and the loop goes on with the next file. */
module CommandLoading {
  import opened Discovery
  import opened Logging

  /** What one call handler.load(path, soundStatus) did: it returned, or it
      threw the error whose text is `cause`. */
  datatype LoadOutcome = Loaded | Threw(cause: string)

  /** One pass of the loop: the file handed to the loader and what happened. */
  datatype Attempt = Attempt(path: string, outcome: LoadOutcome)

  const StartLine: LogLine := LogLine(Info, "Attempting to load commands...")

  function LoadingText(path: string): string {
    "Loading command from " + path + "..."
  }

  function FailureText(path: string, cause: string): string {
    "Failed to register command from " + path + ": " + cause
  }

  /** The lines one pass logs: the announcement, then the error if the load threw. */
  function AttemptLines(a: Attempt): seq<LogLine> {
    [LogLine(Log, LoadingText(a.path))] +
    (if a.outcome.Threw? then [LogLine(Error, FailureText(a.path, a.outcome.cause))] else [])
  }

  /** The lines the passes `attempts` log, in order. */
  function LoadLog(attempts: seq<Attempt>): seq<LogLine> {
    if attempts == [] then []
    else LoadLog(attempts[..|attempts| - 1]) + AttemptLines(attempts[|attempts| - 1])
  }

  /** How many passes ended with the loader throwing. */
  function FailureCount(attempts: seq<Attempt>): nat {
    if attempts == [] then 0
    else FailureCount(attempts[..|attempts| - 1]) + (if attempts[|attempts| - 1].outcome.Threw? then 1 else 0)
  }

  /** The texts of the lines logged at `level`, in order. */
  function TextsAt(log: seq<LogLine>, level: Level): seq<string> {
    if log == [] then []
    else TextsAt(log[..|log| - 1], level) + (if log[|log| - 1].level == level then [log[|log| - 1].text] else [])
  }

  lemma TextsAtAppend(a: seq<LogLine>, b: seq<LogLine>, level: Level)
    ensures TextsAt(a + b, level) == TextsAt(a, level) + TextsAt(b, level)
    decreases |b|
  {
    if b != [] {
      assert (a + b)[..|a + b| - 1] == a + b[..|b| - 1];
      TextsAtAppend(a, b[..|b| - 1], level);
    } else {
      assert a + b == a;
    }
  }

  lemma AttemptLinesTexts(a: Attempt)
    ensures TextsAt(AttemptLines(a), Log) == [LoadingText(a.path)]
    ensures TextsAt(AttemptLines(a), Error) ==
      if a.outcome.Threw? then [FailureText(a.path, a.outcome.cause)] else []
    ensures TextsAt(AttemptLines(a), Info) == []
  {
    var announce := LogLine(Log, LoadingText(a.path));
    assert [announce][..0] == [];
    assert forall level :: TextsAt([announce], level) == if level == Log then [announce.text] else [];
    if a.outcome.Threw? {
      var lines := AttemptLines(a);
      assert |lines| == 2 && lines[..1] == [announce];
      assert lines[1] == LogLine(Error, FailureText(a.path, a.outcome.cause));
    }
  }

  /** The paths of the passes, each as its announcement. */
  function Announcements(attempts: seq<Attempt>): (texts: seq<string>)
    ensures |texts| == |attempts|
  {
    seq(|attempts|, k requires 0 <= k < |attempts| => LoadingText(attempts[k].path))
  }

  lemma {:induction false} LoadLogAnnouncements(attempts: seq<Attempt>)
    ensures TextsAt(LoadLog(attempts), Log) == Announcements(attempts)
    decreases |attempts|
  {
    if attempts != [] {
      var init, last := attempts[..|attempts| - 1], attempts[|attempts| - 1];
      LoadLogAnnouncements(init);
      AttemptLinesTexts(last);
      TextsAtAppend(LoadLog(init), AttemptLines(last), Log);
      assert Announcements(attempts) == Announcements(init) + [LoadingText(last.path)];
    }
  }

  lemma {:induction false} LoadLogErrors(attempts: seq<Attempt>)
    ensures |TextsAt(LoadLog(attempts), Error)| == FailureCount(attempts)
    ensures TextsAt(LoadLog(attempts), Info) == []
    decreases |attempts|
  {
    if attempts != [] {
      var init, last := attempts[..|attempts| - 1], attempts[|attempts| - 1];
      LoadLogErrors(init);
      AttemptLinesTexts(last);
      TextsAtAppend(LoadLog(init), AttemptLines(last), Error);
      TextsAtAppend(LoadLog(init), AttemptLines(last), Info);
    }
  }

  /** The log accounts for every pass: one announcement per file, in the order
      the files were attempted; one error line per load that threw; nothing
      at "info". */
  lemma LoadLogAccountsForEveryAttempt(attempts: seq<Attempt>)
    ensures TextsAt(LoadLog(attempts), Log) == Announcements(attempts)
    ensures |TextsAt(LoadLog(attempts), Error)| == FailureCount(attempts)
    ensures TextsAt(LoadLog(attempts), Info) == []
  {
    LoadLogAnnouncements(attempts);
    LoadLogErrors(attempts);
  }

  /** The passes the loop should make over `files`: one per file, in order,
      each with what the loader does with that file and the sound status. */
  function Attempts(files: seq<string>, soundStatus: bool, load: (string, bool) -> LoadOutcome): seq<Attempt> {
    seq(|files|, k requires 0 <= k < |files| => Attempt(files[k], load(files[k], soundStatus)))
  }

  /** The loop of Shard.init (shard.js:34-41) over the files the generator
      yields. `load` stands for handler.load and `soundStatus` for the result
      of sound.checkStatus(). Every file is attempted exactly once, in order,
      whatever earlier loads did; the log holds exactly the lines those
      passes write. */
  method LoadAll(files: seq<string>, soundStatus: bool, load: (string, bool) -> LoadOutcome)
    returns (attempts: seq<Attempt>, log: seq<LogLine>)
    ensures attempts == Attempts(files, soundStatus, load)
    ensures log == [StartLine] + LoadLog(attempts)
  {
    attempts, log := [], [StartLine];
    var i := 0;
    while i < |files|
      invariant 0 <= i <= |files|
      invariant |attempts| == i
      invariant forall k :: 0 <= k < i ==> attempts[k] == Attempt(files[k], load(files[k], soundStatus))
      invariant log == [StartLine] + LoadLog(attempts)
    {
      var file := files[i];
      log := log + [LogLine(Log, LoadingText(file))];
      var outcome := load(file, soundStatus);
      if outcome.Threw? {
        log := log + [LogLine(Error, FailureText(file, outcome.cause))];
      }
      var before := attempts;
      attempts := attempts + [Attempt(file, outcome)];
      assert attempts[..|attempts| - 1] == before;
      i := i + 1;
    }
  }

  /** Command loading as Shard.init starts it: the loop driven by getFiles
      on the commands root (shard.js:33-41). The files are attempted in the
      order getFiles yields them. When the walk throws, the `for await` has
      no catch for it: the files yielded so far have been attempted and
      `init` stops (`completed` is false). */
  method LoadCommands(tree: seq<Entry>, soundStatus: bool, load: (string, bool) -> LoadOutcome)
    returns (attempts: seq<Attempt>, log: seq<LogLine>, completed: bool)
    ensures completed <==> !GetFiles(CommandsRoot, tree).aborted
    ensures attempts == Attempts(GetFiles(CommandsRoot, tree).paths, soundStatus, load)
    ensures log == [StartLine] + LoadLog(attempts)
  {
    var walk := GetFiles(CommandsRoot, tree);
    attempts, log := LoadAll(walk.paths, soundStatus, load);
    completed := !walk.aborted;
  }

  /** What the loop attempts when getFiles walks `root`, measured against the
      tree: at most one attempt per file, each with the file's intended path,
      in depth-first listing order; and one attempt for every file when the
      walk does not throw. LoadCommands is the case root = CommandsRoot. */
  lemma AttemptsCoverTree(root: string, tree: seq<Entry>, soundStatus: bool, load: (string, bool) -> LoadOutcome)
    ensures var attempts := Attempts(GetFiles(root, tree).paths, soundStatus, load);
      |attempts| <= CountFiles(tree) &&
      (!GetFiles(root, tree).aborted ==> |attempts| == CountFiles(tree)) &&
      forall k :: 0 <= k < |attempts| ==>
        k < |GetFilesJoined(root, tree)| && attempts[k].path == GetFilesJoined(root, tree)[k]
  {
    GetFilesCount(root, tree);
    WalkIsPrefixOfIntended(root, tree);
  }
}
