/** Shard.launch up to its catch (shard.js:30-69, :98-103): init loads the
    commands, registers the events, connects to the image servers and
    generates the help docs; a throw out of any of these ends init there,
    and launch logs one error line and carries on. */
module Startup {
  import opened Logging
  import opened Discovery
  import opened CommandLoading
  import opened Events
  import opened Wrappers

  /** What launch logs when init throws. */
  const InitFailedLine: LogLine := LogLine(Error, "Might have failed to register some things")

  /** What the help-docs step logs on cluster 0. */
  const DocsLine: LogLine := LogLine(Info, "The help docs have been generated.")

  // ---------------------------------------------------------------------
  // Image servers (shard.js:53-62)

  /** What image.connect(server) did: it resolved, or it rejected with the
      error whose text is `error`. */
  datatype ConnectOutcome = Connected | Failed(error: string)

  /** The image API step: whether process.env.API is "true", the servers of
      image.servers, and what connecting to each does. */
  datatype ImageSetup = ImageSetup(apiEnabled: bool, servers: seq<string>, connect: string -> ConnectOutcome)

  /** The lines the connection loop logs for `servers`: one error line per
      server whose connection failed, in order. */
  function ConnectErrors(servers: seq<string>, connect: string -> ConnectOutcome): seq<LogLine> {
    if servers == [] then []
    else
      var last := servers[|servers| - 1];
      ConnectErrors(servers[..|servers| - 1], connect)
      + (if connect(last).Failed? then [LogLine(Error, connect(last).error)] else [])
  }

  /** How many servers' connections failed. */
  function FailedCount(servers: seq<string>, connect: string -> ConnectOutcome): nat {
    if servers == [] then 0
    else FailedCount(servers[..|servers| - 1], connect) + (if connect(servers[|servers| - 1]).Failed? then 1 else 0)
  }

  /** The connection loop logs one line per failed server and nothing else:
      every line is at "error", their number is the number of failures, every
      failed server's error is among them, and there are none exactly when
      every server connects. */
  lemma {:induction false} ConnectErrorsAccount(servers: seq<string>, connect: string -> ConnectOutcome)
    ensures |ConnectErrors(servers, connect)| == FailedCount(servers, connect) <= |servers|
    ensures forall k :: 0 <= k < |ConnectErrors(servers, connect)| ==> ConnectErrors(servers, connect)[k].level == Error
    ensures forall k :: 0 <= k < |servers| && connect(servers[k]).Failed? ==>
      LogLine(Error, connect(servers[k]).error) in ConnectErrors(servers, connect)
    ensures ConnectErrors(servers, connect) == [] <==> forall k :: 0 <= k < |servers| ==> connect(servers[k]).Connected?
    decreases |servers|
  {
    if servers != [] {
      var init := servers[..|servers| - 1];
      ConnectErrorsAccount(init, connect);
      assert forall k :: 0 <= k < |init| ==> init[k] == servers[k];
    }
  }

  /** The loop of shard.js:55-61: a failed connection is logged and the loop
      goes on with the next server, so the loop never throws. */
  method ConnectImageServers(servers: seq<string>, connect: string -> ConnectOutcome)
    returns (log: seq<LogLine>)
    ensures log == ConnectErrors(servers, connect)
  {
    log := [];
    var i := 0;
    while i < |servers|
      invariant 0 <= i <= |servers|
      invariant log == ConnectErrors(servers[..i], connect)
    {
      var outcome := connect(servers[i]);
      if outcome.Failed? {
        log := log + [LogLine(Error, outcome.error)];
      }
      assert servers[..i + 1][..i] == servers[..i];
      i := i + 1;
    }
    assert servers[..i] == servers;
  }

  // ---------------------------------------------------------------------
  // Help docs (shard.js:22-23, :64-69)

  /** The help-docs step: process.env.OUTPUT (None when unset), the
      cluster's id, and whether generateList and createPage reject. */
  datatype HelpSetup = HelpSetup(output: Option<string>, clusterID: int, listThrows: bool, pageThrows: bool)

  /** What a step of init logged, and whether it then threw. */
  datatype Step = Step(lines: seq<LogLine>, threw: bool)

  /** helpGenerator is required unless OUTPUT is the empty string; otherwise it is null. */
  predicate HasHelpGenerator(output: Option<string>) {
    output != Some("")
  }

  /** shard.js:65-69 as written: generateList is called on helpGenerator
      before the test at :66 looks at it, so a null helpGenerator throws. */
  function HelpDocs(help: HelpSetup): Step {
    if !HasHelpGenerator(help.output) then Step([], true)
    else if help.listThrows then Step([], true)
    else if help.clusterID == 0 then
      (if help.pageThrows then Step([], true) else Step([DocsLine], false))
    else Step([], false)
  }

  /** The step as evidently intended: with no helpGenerator, docs are skipped. */
  function HelpDocsGuarded(help: HelpSetup): Step {
    if !HasHelpGenerator(help.output) then Step([], false) else HelpDocs(help)
  }

  /** With OUTPUT set to "", the step as written throws, whatever the
      cluster and whatever the help module would do. */
  lemma NullHelpGeneratorThrows(clusterID: int, listThrows: bool, pageThrows: bool)
    ensures HelpDocs(HelpSetup(Some(""), clusterID, listThrows, pageThrows)) == Step([], true)
  {
  }

  /** The guarded step throws only when the help module itself rejects,
      logs the docs line exactly when cluster 0 generated the page, and
      agrees with the step as written whenever helpGenerator is present. */
  lemma GuardedHelpDocs(help: HelpSetup)
    ensures HelpDocsGuarded(help).threw <==>
      HasHelpGenerator(help.output) && (help.listThrows || (help.clusterID == 0 && help.pageThrows))
    ensures HelpDocsGuarded(help).lines ==
      if HasHelpGenerator(help.output) && !help.listThrows && help.clusterID == 0 && !help.pageThrows
      then [DocsLine] else []
    ensures HasHelpGenerator(help.output) ==> HelpDocsGuarded(help) == HelpDocs(help)
  {
  }

  /** shard.js:53-69: the image step, when enabled, then the help docs. */
  method FinishInit(image: ImageSetup, help: HelpSetup) returns (log: seq<LogLine>, threw: bool)
    ensures log == (if image.apiEnabled then ConnectErrors(image.servers, image.connect) else [])
                   + HelpDocs(help).lines
    ensures threw == HelpDocs(help).threw
  {
    log := [];
    if image.apiEnabled {
      log := ConnectImageServers(image.servers, image.connect);
    }
    var docs := HelpDocs(help);
    log, threw := log + docs.lines, docs.threw;
  }

  // ---------------------------------------------------------------------
  // init under launch's catch

  /** One start of the shard. When the command walk throws, no event is
      registered; when an event module throws, the events before it stay
      bound; when the help docs throw, everything before them has run. In
      each case `completed` is false and the log ends with InitFailedLine.
      `completed` means init went on to register the SIGINT handler. */
  method Launch(tree: seq<Entry>, soundStatus: bool, load: (string, bool) -> LoadOutcome,
                eventFiles: seq<string>, require: string -> ModuleOutcome,
                image: ImageSetup, help: HelpSetup)
    returns (attempts: seq<Attempt>, bindings: seq<Binding>, log: seq<LogLine>, completed: bool)
    ensures attempts == Attempts(GetFiles(CommandsRoot, tree).paths, soundStatus, load)
    ensures GetFiles(CommandsRoot, tree).aborted ==> bindings == []
    ensures !GetFiles(CommandsRoot, tree).aborted ==> |bindings| == FirstFailure(eventFiles, require)
    ensures forall k :: 0 <= k < |bindings| ==>
      bindings[k] == Binding(EventName(eventFiles[k]), EventsDir + eventFiles[k])
    ensures completed <==>
      !GetFiles(CommandsRoot, tree).aborted && FirstFailure(eventFiles, require) == |eventFiles|
      && !HelpDocs(help).threw
    ensures log ==
      [StartLine] + LoadLog(attempts)
      + (if GetFiles(CommandsRoot, tree).aborted then []
         else [HeaderLine(|eventFiles|)] + EventAnnouncements(eventFiles[..Reached(eventFiles, require)]))
      + (if GetFiles(CommandsRoot, tree).aborted || FirstFailure(eventFiles, require) < |eventFiles| then []
         else (if image.apiEnabled then ConnectErrors(image.servers, image.connect) else []) + HelpDocs(help).lines)
      + (if completed then [] else [InitFailedLine])
  {
    var commandLog, commandsDone;
    attempts, commandLog, commandsDone := LoadCommands(tree, soundStatus, load);
    var eventLog, eventsDone, tailLog, tailThrew := [], false, [], true;
    bindings := [];
    if commandsDone {
      bindings, eventLog, eventsDone := RegisterEvents(eventFiles, require);
      if eventsDone {
        tailLog, tailThrew := FinishInit(image, help);
      }
    }
    completed := eventsDone && !tailThrew;
    log := commandLog + eventLog + tailLog + (if completed then [] else [InitFailedLine]);
  }
}
