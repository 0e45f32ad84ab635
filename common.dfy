/** String helpers shared by the discovery and event models. */
module Text {

  /** The pieces joined by `sep`, as JavaScript's parts.join(sep) does. */
  function JoinWith(parts: seq<string>, sep: char): string
    requires |parts| > 0
  {
    if |parts| == 1 then parts[0] else parts[0] + [sep] + JoinWith(parts[1..], sep)
  }
}

/** The calls shard.js makes on its logger: logger.log("info", ..),
    logger.log("log", ..) and logger.error(..). */
module Logging {

  datatype Level = Info | Log | Error

  datatype LogLine = LogLine(level: Level, text: string)
}

/** An optional value. */
module Wrappers {

  datatype Option<T> = None | Some(value: T)
}
