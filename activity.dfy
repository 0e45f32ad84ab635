/** The status text set by activityChanger in Shard.launch:
    `<message> | @<username> help`, with the message drawn from the pool of
    playing messages. The random draw (misc.random) is given as an index. */
module Activity {
  import opened Wrappers

  /** The presence passed to editStatus: a status kind and the activity name. */
  datatype Presence = Presence(status: string, name: string)

  /** activityChanger always sets the "do not disturb" status. */
  const StatusKind: string := "dnd"

  /** What follows the message in every status name. */
  function Suffix(username: string): string {
    " | @" + username + " help"
  }

  /** The activity name for `message` and the bot's user name. */
  function StatusName(message: string, username: string): (name: string)
    ensures |name| == |message| + |username| + 9
    ensures name[..|message|] == message
    ensures name[|message|..|message| + 4] == " | @"
    ensures name[|message| + 4..|name| - 5] == username
    ensures name[|name| - 5..] == " help"
  {
    message + Suffix(username)
  }

  /** Recovers the message from an activity name, when the name has the
      shape StatusName gives for `username`. */
  function ParseStatusName(name: string, username: string): (m: Option<string>)
    ensures m.Some? ==> |m.value| + |Suffix(username)| == |name|
  {
    var suffix := Suffix(username);
    if |suffix| <= |name| && name[|name| - |suffix|..] == suffix
    then Some(name[..|name| - |suffix|])
    else None
  }

  /** Every status name gives back its message. */
  lemma ParseStatusNameRoundTrip(message: string, username: string)
    ensures ParseStatusName(StatusName(message, username), username) == Some(message)
  {
  }

  /** Only status names parse: a parsed message rebuilds the name exactly. */
  lemma ParseStatusNameSound(name: string, username: string)
    requires ParseStatusName(name, username).Some?
    ensures StatusName(ParseStatusName(name, username).value, username) == name
  {
  }

  /** One run of activityChanger: the presence set when the random draw
      picked `messages[pick]`. */
  function ActivityPresence(messages: seq<string>, pick: nat, username: string): (p: Presence)
    requires pick < |messages|
    ensures p.status == StatusKind
    ensures ParseStatusName(p.name, username) == Some(messages[pick])
  {
    ParseStatusNameRoundTrip(messages[pick], username);
    Presence(StatusKind, StatusName(messages[pick], username))
  }

  /** The presences set by successive runs of activityChanger, one every
      900000 ms (the setTimeout delay), for the successive draws `picks`. */
  function Rotation(messages: seq<string>, picks: seq<nat>, username: string): (ps: seq<Presence>)
    requires forall k :: 0 <= k < |picks| ==> picks[k] < |messages|
    ensures |ps| == |picks|
  {
    seq(|picks|, k requires 0 <= k < |picks| => ActivityPresence(messages, picks[k], username))
  }

  /** However the draws fall, every presence shows a message from the pool,
      followed by the mention of the bot's user name. */
  lemma RotationShowsPoolMessages(messages: seq<string>, picks: seq<nat>, username: string, k: nat)
    requires forall j :: 0 <= j < |picks| ==> picks[j] < |messages|
    requires k < |picks|
    ensures Rotation(messages, picks, username)[k].status == StatusKind
    ensures exists i :: 0 <= i < |messages| && Rotation(messages, picks, username)[k].name == StatusName(messages[i], username)
  {
  }
}
