# esmBot shard worker: start-up logic, modelled in Dafny

This project models the sequential logic inside `shard.js` of esmBot, the class
that each worker of the bot's cluster runs. Most of that file is start-up
wiring: it reads from the filesystem, requires modules, registers gateway
listeners and arms timers. The model covers the logic under that wiring:

- **Command discovery** (`Shard.getFiles`). This is a depth-first walk over the
  commands directory in listing order. It builds each file's path by string
  concatenation. The directory tree is an in-memory `Entry` tree
  (`File(name) | Dir(name, children)`). `GetFiles` keeps the source's exact
  joining rules. A file's path gets a `/` only when the directory string does
  not already end in one. A sub-directory is read as `dir + name`, with no
  separator. When that string is not the sub-directory's own path, `readdir`
  rejects and the walk throws. `GetFiles` therefore returns a `Walk`: the paths
  yielded so far, and whether the walk threw.
- **Command loading** (the loop at the start of `Shard.init`). Each discovered
  file goes to `handler.load` in turn. A load that throws is logged, and the
  loop moves on to the next file. A throw from the walk itself is not caught
  and ends `init`. The loader is a function from a path and the sound status to
  an outcome. The methods return the attempts and the logger lines they write.
- **Event registration** (the events loop in `Shard.init`). An event's name is
  the part of its file name before the first `.`, the same as JavaScript's
  `file.split(".")[0]`. `split` is modelled in full for a one-character
  separator. Requiring and binding a module either succeeds or throws. The
  loop has no catch, so the first module that throws ends `init`.
- **Start-up** (`Shard.launch` around `init`). Command loading runs, then event
  registration, then the image-server connections when the API is enabled, then
  help-docs generation. A failed image connection is logged and skipped. A
  throw out of any other step is caught by `launch`, which logs one error line.
  The help step calls `helpGenerator.generateList()` before it checks that
  `helpGenerator` is not null, so with `OUTPUT` set to `""` that call always
  throws.
- **Activity status** (`activityChanger` in `Shard.launch`). The status name is
  `<message> | @<username> help`, where the message comes from the pool of
  playing messages. The random draw is passed in as an index into the pool.

Files:
- `common.dfy`: modules `Text` (string joining), `Logging` (logger lines) and `Wrappers` (`Option`).
- `discovery.dfy`: `Discovery`.
- `commands.dfy`: `CommandLoading`.
- `events.dfy`: `Events`.
- `startup.dfy`: `Startup`.
- `activity.dfy`: `Activity`.

## Model

| member | source | states |
|---|---|---|
| `Discovery.Join` | shard.js:93 | The path starts with `dir` and ends with the name. A `/` is inserted exactly when `dir` does not already end in one, so the name is always preceded by a `/`. |
| `Discovery.EnteredAsWritten` | shard.js:91 | The string `dir + name` handed to `readdir` is the sub-directory's own path exactly when `dir` ends in `/`. |
| `Discovery.GetFiles` | shard.js:87-95 | The walk as written. It returns the paths yielded in depth-first listing order, and whether a `readdir` rejected. Its properties are the rows from `Discovery.GetFilesCount` to `Discovery.DeepNestingAbortsWalk`. |
| `Discovery.EntryFiles` | shard.js:89-94 | One entry of a listing. A file yields `Join(dir, name)` (:93). A sub-directory is read as `dir + name` (:91), and the walk throws there unless that string is the sub-directory's path, as `Discovery.EnteredAsWritten` states. |
| `Discovery.GetFilesCount` | shard.js:87-95 | getFiles yields at most one path per file anywhere below the root. It yields exactly one per file when it does not throw. Directories yield no path of their own. |
| `Discovery.WalkIsPrefixOfIntended` | shard.js:87-95 | For every tree, the yielded paths are the first paths of the intended walk, in the same order. They are all of them when the walk does not throw. |
| `Discovery.WalkCompletes` | shard.js:88-92 | With filesystem names, the walk finishes without throwing exactly when one of two things holds. Under a root ending in `/`, no sub-directory holds another. Under any other root, the listing holds no directory. |
| `Discovery.PathsStartWithRootEndWithName` | shard.js:93 | Every yielded path starts with the root string and ends with its file's name. The character just before the name is `/`. |
| `Discovery.GetFilesAppend` | shard.js:89-95 | Listing order is kept. The walk of two consecutive runs of entries is the walk of the first run, then, unless that threw, the walk of the second. |
| `Discovery.SubdirectoryIsContiguous` | shard.js:88-92 | A sub-directory's paths form one contiguous block at the sub-directory's position among its siblings. The block is the walk of `dir + name` when `dir` ends in `/`. Otherwise the walk throws at that position. |
| `Discovery.OneLevelUnderCommandsRoot` | shard.js:91-93 | Under the root `./commands/`, a file `f` in sub-directory `s` is yielded as `./commands/s/f`, and the walk finishes. |
| `Discovery.FlatListingsAgree` | shard.js:89-95 | A listing of files only is walked to the end and yields the intended paths. |
| `Discovery.OneLevelListingsAgree` | shard.js:88-93 | Under a root ending in `/`, the walk finishes and yields the intended paths when no sub-directory holds another. |
| `Discovery.DeepNestingAbortsWalk` | shard.js:88-91 | Two levels down, the walk reads `./commands/st` instead of `./commands/s/t` and throws. Of `a`, `s/t/f` and `g` under `./commands/`, only `./commands/a` is yielded. The intended walk yields all three. |
| `Discovery.GetFilesJoined` | shard.js:87-95 | The walk as evidently intended, with each sub-directory entered by `Join(dir, name)`. Its properties are `Discovery.JoinedCount`, `Discovery.IntendedPathsFollowChains` and `Discovery.GetFilesJoinedIsRelativePath`. |
| `Discovery.EntryFilesJoined` | shard.js:89-94 | One entry of the intended walk: a file's joined path, or the intended walk of the sub-directory's joined path. |
| `Discovery.JoinedCount` | shard.js:89-95 | The intended walk yields exactly one path per file anywhere below the root. |
| `Discovery.IntendedPathsFollowChains` | shard.js:89-95 | The k-th path of the intended walk is where the k-th file's chain of names leads from the root, in depth-first listing order. |
| `Discovery.GetFilesJoinedIsRelativePath` | shard.js:91-93 | With directories entered as `Join(dir, name)` and well-formed names, every path is the root joined to the file's relative path, with `/` between every two names. |
| `CommandLoading.AttemptLines` | shard.js:35-39 | The lines one pass writes: the announcement at "log", then, when the load threw, the failure line at "error". Its properties are `CommandLoading.LoadLogAccountsForEveryAttempt`. |
| `CommandLoading.LoadLog` | shard.js:34-41 | The lines of all passes, in attempt order. `CommandLoading.LoadLogAccountsForEveryAttempt` states what they hold. |
| `CommandLoading.LoadAll` | shard.js:34-41 | Every file the generator yields is attempted exactly once, in order, with the sound status. Each attempt records the loader's own outcome, so a throw does not stop later files. The log is the opening line followed by exactly the lines each pass writes. |
| `CommandLoading.LoadCommands` | shard.js:33-41 | Driven by getFiles on `./commands/`, the loop attempts exactly the paths the walk yields, in order, each with the loader's own outcome. `init` carries on exactly when the walk did not throw. The log is the opening line, then exactly the lines those passes write. |
| `CommandLoading.AttemptsCoverTree` | shard.js:34-41 | Measured against the tree, the loop makes at most one attempt per file, in depth-first listing order, each with the file's intended path. When the walk does not throw, every file in the tree is attempted exactly once. |
| `CommandLoading.LoadLogAccountsForEveryAttempt` | shard.js:35-39 | The "log" lines announce every attempted file, one each, in attempt order. There is one error line per load that threw. The loop writes nothing at "info". |
| `Events.Split` | shard.js:48 | JavaScript's `split` for a one-character separator. There is at least one piece, and no piece contains the separator. `Events.SplitJoinRoundTrip` shows nothing is lost. |
| `Events.SplitJoinRoundTrip` | shard.js:48 | The split loses nothing: joining the pieces with the separator gives back the original string. |
| `Events.EventName` | shard.js:48 | The event name is a prefix of the file name and contains no `.`. It stops either at the end of the file name or just before a `.`. |
| `Events.EventNameUnique` | shard.js:48 | Those three properties pick out exactly one string, the prefix up to the first `.`. |
| `Events.EventNameOfModuleFile` | shard.js:48 | A name with no `.` is its own event name. `base.ext` names the event `base`. |
| `Events.EventAnnouncements` | shard.js:47 | The "log" line `Loading event from <file>...` for each file in turn, one per file, in listing order. `Events.RegisterEvents` states which files the loop reaches. |
| `Events.CountText` | shard.js:45 | The count `events.length` written in decimal. The text is non-empty and made of digits only. `Events.CountTextSpellsCount` states that it spells the count. |
| `Events.CountTextSpellsCount` | shard.js:45 | The decimal value of the text is the count. The text starts with `0` only for the count 0, so it has no leading zero. |
| `Events.HeaderLine` | shard.js:45 | The "info" line that gives the number of event files, as `Events.RegisterEvents` logs it first. |
| `Events.FirstFailure` | shard.js:46-50 | Every module before the returned position binds. The module at that position throws, unless the position is the end of the listing. |
| `Events.RegisterEvents` | shard.js:44-51 | Bindings are made exactly for the files before the first module that throws, in listing order. Each is bound to its file's event name and to `./events/<file>`. The loop finishes exactly when no module throws. The log gives the count, then announces every file the loop reaches, including the one that throws. |
| `Startup.ConnectErrors` | shard.js:55-61 | The lines of the image-server loop: one error line per failed connection, in server order. Its properties are `Startup.ConnectErrorsAccount`. |
| `Startup.ConnectErrorsAccount` | shard.js:55-61 | The connection loop logs one line per failed server and nothing else. Every line is at "error", and there are exactly as many lines as failed servers. Every failed server's error is among them, so the loop goes on past a failure. There are none exactly when every server connects. |
| `Startup.ConnectImageServers` | shard.js:55-61 | The loop logs exactly the connection errors, in order, and never throws: a failed connection does not stop later servers. |
| `Startup.HasHelpGenerator` | shard.js:22-23 | `helpGenerator` is present exactly when `OUTPUT` is not the empty string, including when it is unset. |
| `Startup.HelpDocs` | shard.js:65-69 | The help step as written: it throws when `helpGenerator` is null or the help module rejects. Otherwise it logs "The help docs have been generated." on cluster 0 only. |
| `Startup.NullHelpGeneratorThrows` | shard.js:65-66 | With `OUTPUT` set to `""`, the step as written throws and logs nothing, whatever the cluster and the help module do. |
| `Startup.HelpDocsGuarded` | shard.js:65-69 | The help step with the null test done first. Its properties are `Startup.GuardedHelpDocs`. |
| `Startup.GuardedHelpDocs` | shard.js:65-69 | The guarded step throws exactly when the help module rejects. It logs the docs line exactly when cluster 0 generated the page. It agrees with the step as written whenever `helpGenerator` is present. |
| `Startup.FinishInit` | shard.js:53-69 | When the API is enabled, the connection errors are logged first, then the help step's lines. The step throws exactly when the help step throws. |
| `Startup.Launch` | shard.js:98-103 | Each step runs only if the steps before it did not throw: commands, events, then image servers and help docs. The bindings are exactly those `Events.RegisterEvents` makes, each with its file's event name. `completed` holds exactly when no step threw, and only then does the log lack the final line "Might have failed to register some things". The log is otherwise the lines of the steps that ran, in order. |
| `Activity.StatusName` | shard.js:115 | The activity name is the message, then a space, a vertical bar, a space and `@`, then the user name, then ` help`. Nothing else comes before, between or after them. |
| `Activity.ParseStatusNameRoundTrip` | shard.js:115 | The message can be recovered from every status name. |
| `Activity.ParseStatusNameSound` | shard.js:115 | Only names of that shape parse, and the recovered message rebuilds the name exactly. |
| `Activity.ActivityPresence` | shard.js:114-116 | The status is "dnd", and its name carries exactly the message drawn from the pool. |
| `Activity.Rotation` | shard.js:113-118 | The presences of successive runs of activityChanger, one per draw, each the presence for that draw. `Activity.RotationShowsPoolMessages` states what every one shows. |
| `Activity.RotationShowsPoolMessages` | shard.js:113-118 | On every run of activityChanger, whatever is drawn, the status is "dnd" and its name is some pool message followed by the mention of the bot's user name. |

## Findings

| source | as written | input that shows it | evidently intended | confidence | as-written member | corrected member |
|---|---|---|---|---|---|---|
| shard.js:65 | `helpGenerator.generateList()` is called before the test `&& helpGenerator` at :66. `helpGenerator` is null when `OUTPUT` is `""` (:22-23). | `OUTPUT` set to `""`: the call throws a TypeError, and `launch` logs "Might have failed to register some things". | The help step is skipped when `helpGenerator` is null, as the test at :66 suggests. | high, not executed | `Startup.NullHelpGeneratorThrows` | `Startup.GuardedHelpDocs` |
| shard.js:91 | Recursion enters a sub-directory as `dir + dirent.name` without adding a separator. That works one level below a root ending in `/`. At the next level, `readdir` is handed a path that does not name the directory. It rejects, and `init` stops before the remaining commands and all events. | Root `./commands/` holding file `a`, directory `s` and file `g`, where `s` holds directory `t` and `t` holds file `f`. The walk reads `./commands/st` instead of `./commands/s/t`, yields only `./commands/a` and throws. | The directory joined with the rule files get, giving `./commands/a`, `./commands/s/t/f` and `./commands/g`. | high, not executed | `Discovery.DeepNestingAbortsWalk` | `Discovery.GetFilesJoinedIsRelativePath` |

`CommandLoading.LoadCommands` and `Startup.Launch` are driven by the as-written
`GetFiles`, because that is the walk `Shard.init` runs. `Discovery.WalkIsPrefixOfIntended`
shows that whatever it yields agrees with the corrected walk `GetFilesJoined`.
`Discovery.OneLevelListingsAgree` and `Discovery.WalkCompletes` show that the two
coincide exactly when the commands tree has at most one level of
sub-directories. `shard.js` itself does not fix that layout. Likewise,
`Startup.Launch` runs the help step as written.

## Left out

- Filesystem access (`readdir` with file types, `require`) is replaced by the in-memory `Entry` tree, the `load` function and the `require` function. A `readdir` on a directory that exists is taken to succeed. A `readdir` on a string that is not the path of a directory in the tree is taken to reject.
- Discovery.EntryFiles: the run-together string `dir + name` is taken to name no directory. If a sibling directory of exactly that name existed (`./commands/st` beside `./commands/s`), the source would list that sibling instead of throwing, and the model does not capture this.
- Names in the tree are taken as given. Only `Discovery.WalkCompletes`, `Discovery.OneLevelUnderCommandsRoot` and the corrected-recursion lemmas require filesystem-like names, which are non-empty and contain no `/`.
- `handler.load` and the command collections it fills are not part of this model. The loader is an outcome function of the path and the sound status, so which commands end up registered, and any audio-backend gating, is not modelled.
- `sound.checkStatus()` is a parameter (`soundStatus`). Both it and `readdir("./events/")` (shard.js:32, :44) are taken to resolve. A rejection of either would also end `init` in the catch at shard.js:101-102. `sound.connect`, `database.setup` and `database.stop` are I/O and are left out.
- `readdir("./events/")` is replaced by the list of event file names. `this.bot.on`, `event.bind` and the required event modules are left out. Requiring and binding a module is an outcome, either binds or throws, and a listener is recorded as the event name plus the module path it comes from.
- `process.env.API`, `image.servers` and `image.connect` are parameters (`ImageSetup`). A failed connection logs its error text, and the error object itself is not modelled.
- `process.env.OUTPUT` and `this.clusterID` are parameters (`HelpSetup`). `generateList` and `createPage` are reduced to whether each rejects. The help pages they write are not part of this model.
- Startup.Launch: `completed` means that `init` went on to register the SIGINT handler (shard.js:72-83). The handler itself is not modelled. It has no input for a rejection of `sound.checkStatus()` or `readdir("./events/")`; both are taken to resolve.
- The SIGINT handler's body, `process.exit`, `process.send`, `this.bot.editStatus` for shutdown, `disconnect` and `privateChannels.limit` are process lifecycle and gateway plumbing, so they are left out.
- `misc.random` is not part of this model. Its draw is an index `pick < |messages|`, so its behaviour on an empty pool is not captured.
- The self-rescheduling `setTimeout` is left out as timer plumbing. `Activity.Rotation` lists successive runs with no clock.
- `async`/`await` interleaving is not modelled. Each loop is one sequential pass, and the generator's yields are taken in order.
- JavaScript strings are sequences of UTF-16 code units. The model uses Dafny `char`, with no encoding concerns.
- Module reload, the inter-process command bus and the broadcast override store are not in `shard.js`, so nothing models them.
