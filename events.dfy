/** Event registration in Shard.init: every file of "./events/" is bound to
    the gateway event named by the part of its file name before the first '.'. */
module Events {
  import opened Text
  import opened Logging

  /** JavaScript's s.split(sep) for a one-character separator: the pieces
      between separators, including empty ones, and always at least one. */
  function Split(s: string, sep: char): (parts: seq<string>)
    ensures |parts| > 0
    ensures forall k :: 0 <= k < |parts| ==> sep !in parts[k]
  {
    if s == [] then [""]
    else
      var rest := Split(s[1..], sep);
      if s[0] == sep then [""] + rest else [[s[0]] + rest[0]] + rest[1..]
  }

  /** Splitting loses nothing: gluing the pieces back gives the original string. */
  lemma {:induction false} SplitJoinRoundTrip(s: string, sep: char)
    ensures JoinWith(Split(s, sep), sep) == s
    decreases |s|
  {
    if s != [] {
      var rest := Split(s[1..], sep);
      SplitJoinRoundTrip(s[1..], sep);
      if s[0] == sep {
        assert ([""] + rest)[1..] == rest;
      } else {
        var parts := [[s[0]] + rest[0]] + rest[1..];
        if |rest| > 1 {
          assert parts[1..] == rest[1..];
        }
      }
    }
  }

  /** file.split(".")[0]: the event name given by an event file's name. */
  function EventName(file: string): (name: string)
    ensures '.' !in name
    ensures |name| <= |file| && name == file[..|name|]
    ensures |name| < |file| ==> file[|name|] == '.'
  {
    SplitFirst(file);
    Split(file, '.')[0]
  }

  /** The first piece of a split is the longest prefix free of the separator. */
  lemma {:induction false} SplitFirst(s: string)
    ensures |Split(s, '.')[0]| <= |s|
    ensures Split(s, '.')[0] == s[..|Split(s, '.')[0]|]
    ensures |Split(s, '.')[0]| < |s| ==> s[|Split(s, '.')[0]|] == '.'
    decreases |s|
  {
    if s != [] && s[0] != '.' {
      SplitFirst(s[1..]);
    }
  }

  /** The three properties EventName promises single out one string: the
      prefix up to the first '.', or the whole name when it has none. */
  lemma EventNameUnique(file: string, name: string)
    requires '.' !in name
    requires |name| <= |file| && name == file[..|name|]
    requires |name| < |file| ==> file[|name|] == '.'
    ensures name == EventName(file)
  {
  }

  /** A name without '.' is its own event name; "messageCreate.js" names the
      event "messageCreate". */
  lemma EventNameOfModuleFile(base: string, ext: string)
    requires '.' !in base
    ensures EventName(base) == base
    ensures EventName(base + "." + ext) == base
  {
    EventNameUnique(base, base);
    var file := base + "." + ext;
    assert file[..|base|] == base && file[|base|] == '.';
    EventNameUnique(file, base);
  }

  /** The directory the event modules are required from. */
  const EventsDir: string := "./events/"

  /** this.bot.on(eventName, handler): the listener bound to the event, given
      by the module it was required from. */
  datatype Binding = Binding(event: string, source: string)

  /** What require("./events/" + file) followed by event.bind(null, bot)
      does: it gives the listener, or one of the two throws (the module fails
      to load, or what it exports is not a function). */
  datatype ModuleOutcome = Binds | Throws

  /** The number a string of decimal digits spells, most significant first. */
  function DecimalValue(digits: string): nat {
    if digits == [] then 0
    else
      var last := digits[|digits| - 1];
      DecimalValue(digits[..|digits| - 1]) * 10 + (if '0' <= last <= '9' then last as int - '0' as int else 0)
  }

  /** n written in decimal, as a template literal shows a count. */
  function CountText(n: nat): (digits: string)
    ensures |digits| > 0
    ensures forall k :: 0 <= k < |digits| ==> '0' <= digits[k] <= '9'
    decreases n
  {
    if n < 10 then ["0123456789"[n]] else CountText(n / 10) + ["0123456789"[n % 10]]
  }

  /** The digits CountText writes spell n, with no leading zero. */
  lemma {:induction false} CountTextSpellsCount(n: nat)
    ensures DecimalValue(CountText(n)) == n
    ensures CountText(n)[0] == '0' <==> n == 0
    decreases n
  {
    if n >= 10 {
      CountTextSpellsCount(n / 10);
      var prefix, digits := CountText(n / 10), CountText(n);
      assert digits[..|digits| - 1] == prefix;
    }
  }

  function HeaderLine(count: nat): LogLine {
    LogLine(Info, "Attempting to load " + CountText(count) + " events...")
  }

  /** The announcement logged for each file in turn, before it is required. */
  function EventAnnouncements(files: seq<string>): (lines: seq<LogLine>)
    ensures |lines| == |files|
  {
    seq(|files|, k requires 0 <= k < |files| => LogLine(Log, "Loading event from " + files[k] + "..."))
  }

  /** The position of the first file whose module throws, or the number of
      files when none does. */
  function FirstFailure(files: seq<string>, require: string -> ModuleOutcome): (n: nat)
    ensures n <= |files|
    ensures forall k :: 0 <= k < n ==> require(EventsDir + files[k]) == Binds
    ensures n < |files| ==> require(EventsDir + files[n]) == Throws
  {
    FirstFailureFrom(files, require, 0)
  }

  /** The position of the first file from position `i` on whose module throws. */
  function FirstFailureFrom(files: seq<string>, require: string -> ModuleOutcome, i: nat): (n: nat)
    requires i <= |files|
    ensures i <= n <= |files|
    ensures forall k :: i <= k < n ==> require(EventsDir + files[k]) == Binds
    ensures n < |files| ==> require(EventsDir + files[n]) == Throws
    decreases |files| - i
  {
    if i == |files| || require(EventsDir + files[i]) == Throws then i
    else
      var n := FirstFailureFrom(files, require, i + 1);
      assert require(EventsDir + files[i]) == Binds;
      n
  }

  /** How many files the loop announces: all of them when none throws, else
      those up to and including the first that throws. */
  function Reached(files: seq<string>, require: string -> ModuleOutcome): nat {
    var n := FirstFailure(files, require);
    if n < |files| then n + 1 else n
  }

  /** The events loop of Shard.init (shard.js:45-51) over the listing of
      "./events/". `require` stands for requiring a module and binding its
      export. The loop has no catch: the files before the first module that
      throws are bound, each to its file's event name and module, and the
      throw then ends the loop and `init` (`completed` is false). The log
      gives the count, then announces every file the loop reaches. */
  method RegisterEvents(files: seq<string>, require: string -> ModuleOutcome)
    returns (bindings: seq<Binding>, log: seq<LogLine>, completed: bool)
    ensures completed <==> FirstFailure(files, require) == |files|
    ensures |bindings| == FirstFailure(files, require)
    ensures forall k :: 0 <= k < |bindings| ==>
      bindings[k] == Binding(EventName(files[k]), EventsDir + files[k])
    ensures forall k :: 0 <= k < |bindings| ==>
      bindings[k].source == EventsDir + files[k] &&
      '.' !in bindings[k].event &&
      |bindings[k].event| <= |files[k]| &&
      files[k][..|bindings[k].event|] == bindings[k].event &&
      (|bindings[k].event| < |files[k]| ==> files[k][|bindings[k].event|] == '.')
    ensures log == [HeaderLine(|files|)] + EventAnnouncements(files[..Reached(files, require)])
  {
    bindings, log, completed := [], [HeaderLine(|files|)], true;
    var i := 0;
    while i < |files|
      invariant i <= FirstFailure(files, require)
      invariant |bindings| == i
      invariant forall k :: 0 <= k < i ==> bindings[k] == Binding(EventName(files[k]), EventsDir + files[k])
      invariant log == [HeaderLine(|files|)] + EventAnnouncements(files[..i])
    {
      var file := files[i];
      log := log + [LogLine(Log, "Loading event from " + file + "...")];
      assert EventAnnouncements(files[..i + 1]) == EventAnnouncements(files[..i]) + [log[|log| - 1]];
      if require(EventsDir + file) == Throws {
        completed := false;
        break;
      }
      bindings := bindings + [Binding(EventName(file), EventsDir + file)];
      i := i + 1;
    }
  }
}
