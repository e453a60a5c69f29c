/**
 * The closed protocol vocabulary of the integration: the MQTT topic segments
 * that Shairport Sync publishes under its base topic, and the command tokens it
 * accepts on its remote-control topic. Both are string enumerations in the
 * source; here each is a datatype whose `ToString` gives the wire text, with
 * the enumeration's by-value lookup as its inverse.
 */
module Vocabulary {
  import opened Wrappers

  /** A segment of Shairport Sync's MQTT topic hierarchy. */
  datatype TopLevelTopic =
    | Ssnc | Core | Remote
    | PlayStart | PlayResume | PlayEnd | PlayFlush | ActiveEnd
    | Artist | Album | Title | Cover | Volume
    | Position | Duration | Seek
  {
    /** The segment as it appears in a topic string. */
    function ToString(): (s: string)
      ensures |s| > 0
      ensures forall i :: 0 <= i < |s| ==> s[i] != '/'
    {
      match this
      case Ssnc => "ssnc"
      case Core => "core"
      case Remote => "remote"
      case PlayStart => "play_start"
      case PlayResume => "play_resume"
      case PlayEnd => "play_end"
      case PlayFlush => "play_flush"
      case ActiveEnd => "active_end"
      case Artist => "artist"
      case Album => "album"
      case Title => "title"
      case Cover => "cover"
      case Volume => "volume"
      case Position => "position"
      case Duration => "duration"
      case Seek => "seek"
    }
  }

  /** Lookup of a segment by its text, as the string enumeration offers it. */
  function TopLevelTopicFromString(s: string): (r: Option<TopLevelTopic>)
    ensures r.Some? ==> r.value.ToString() == s
  {
    if s == "ssnc" then Some(Ssnc)
    else if s == "core" then Some(Core)
    else if s == "remote" then Some(Remote)
    else if s == "play_start" then Some(PlayStart)
    else if s == "play_resume" then Some(PlayResume)
    else if s == "play_end" then Some(PlayEnd)
    else if s == "play_flush" then Some(PlayFlush)
    else if s == "active_end" then Some(ActiveEnd)
    else if s == "artist" then Some(Artist)
    else if s == "album" then Some(Album)
    else if s == "title" then Some(Title)
    else if s == "cover" then Some(Cover)
    else if s == "volume" then Some(Volume)
    else if s == "position" then Some(Position)
    else if s == "duration" then Some(Duration)
    else if s == "seek" then Some(Seek)
    else None
  }

  lemma TopLevelTopicRoundTrip(t: TopLevelTopic)
    ensures TopLevelTopicFromString(t.ToString()) == Some(t)
  {
    match t
    case Ssnc =>
    case Core =>
    case Remote =>
    case PlayStart =>
    case PlayResume =>
    case PlayEnd =>
    case PlayFlush =>
    case ActiveEnd =>
    case Artist =>
    case Album =>
    case Title =>
    case Cover =>
    case Volume =>
    case Position =>
    case Duration =>
    case Seek =>
  }

  /** Distinct segments have distinct texts. */
  lemma TopLevelTopicTextInjective(a: TopLevelTopic, b: TopLevelTopic)
    requires a.ToString() == b.ToString()
    ensures a == b
  {
    TopLevelTopicRoundTrip(a);
    TopLevelTopicRoundTrip(b);
  }

  /** A command the integration sends to Shairport Sync's remote-control topic. */
  datatype Command =
    | Play | Pause | Stop
    | SkipNext | SkipPrevious
    | VolumeUp | VolumeDown
    | SeekTo | SetPosition
  {
    /** The token published for the command. */
    function ToString(): (s: string)
      ensures |s| > 0
    {
      match this
      case Play => "play"
      case Pause => "pause"
      case Stop => "stop"
      case SkipNext => "nextitem"
      case SkipPrevious => "previtem"
      case VolumeUp => "volumeup"
      case VolumeDown => "volumedown"
      case SeekTo => "seek_to"
      case SetPosition => "set_position"
    }
  }

  /** Lookup of a command by its token. */
  function CommandFromString(s: string): (r: Option<Command>)
    ensures r.Some? ==> r.value.ToString() == s
  {
    if s == "play" then Some(Play)
    else if s == "pause" then Some(Pause)
    else if s == "stop" then Some(Stop)
    else if s == "nextitem" then Some(SkipNext)
    else if s == "previtem" then Some(SkipPrevious)
    else if s == "volumeup" then Some(VolumeUp)
    else if s == "volumedown" then Some(VolumeDown)
    else if s == "seek_to" then Some(SeekTo)
    else if s == "set_position" then Some(SetPosition)
    else None
  }

  lemma CommandRoundTrip(c: Command)
    ensures CommandFromString(c.ToString()) == Some(c)
  {
    match c
    case Play =>
    case Pause =>
    case Stop =>
    case SkipNext =>
    case SkipPrevious =>
    case VolumeUp =>
    case VolumeDown =>
    case SeekTo =>
    case SetPosition =>
  }

  /** Distinct commands publish distinct tokens, so a receiver can tell them apart. */
  lemma CommandTokenInjective(a: Command, b: Command)
    requires a.ToString() == b.ToString()
    ensures a == b
  {
    CommandRoundTrip(a);
    CommandRoundTrip(b);
  }
}
