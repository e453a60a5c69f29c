/**
 * The receiver state that the media-player entity keeps, as a value, and the
 * effect of each MQTT message handler on it. The entity class applies exactly
 * these effects in place; the lemmas here are about single messages and about
 * message sequences.
 */
module Receiver {
  import opened Wrappers
  import Decibels

  newtype Byte = b: int | 0 <= b < 256

  /** The playback states the entity reports. */
  datatype PlayerState = Idle | Playing | Paused

  /** The text fields the core-metadata handlers write. */
  datatype MetaField = Title | Artist | Album

  /** The callbacks the entity binds to its subscribed topics. */
  datatype Handler =
    | OnPlay | OnPause | OnStop
    | OnMeta(field: MetaField)
    | OnArt
    | OnVolume
    | OnPosition | OnDuration

  /** A message payload as the host hands it to a callback: decoded text, or raw bytes. */
  datatype Payload = Text(text: string) | Binary(bytes: seq<Byte>)

  /** The cover-art callback receives raw bytes; every other callback receives text. */
  predicate Accepts(h: Handler, p: Payload) {
    if h == OnArt then p.Binary? else p.Text?
  }

  datatype Snapshot = Snapshot(
    state: PlayerState,
    title: Option<string>,
    artist: Option<string>,
    album: Option<string>,
    mediaImage: Option<seq<Byte>>,
    volumeDb: Option<real>)

  /** What a freshly constructed entity holds. */
  function Initial(): Snapshot {
    Snapshot(Idle, None, None, None, None, None)
  }

  function Meta(s: Snapshot, f: MetaField): Option<string> {
    match f
    case Title => s.title
    case Artist => s.artist
    case Album => s.album
  }

  /** No track metadata, no artwork and no volume. */
  predicate Cleared(s: Snapshot) {
    s.title.None? && s.artist.None? && s.album.None? && s.mediaImage.None? && s.volumeDb.None?
  }

  /** The volume, when known, lies on the decibel range. */
  predicate Invariant(s: Snapshot) {
    s.volumeDb.Some? ==> Decibels.InRange(s.volumeDb.value)
  }

  /** The state a status callback moves to. */
  function Target(h: Handler): Option<PlayerState> {
    match h
    case OnPlay => Some(Playing)
    case OnPause => Some(Paused)
    case OnStop => Some(Idle)
    case _ => None
  }

  /** A status change: unconditional, and wiping everything but the state when it enters Idle. */
  function SetState(s: Snapshot, target: PlayerState): (r: Snapshot)
    ensures r.state == target
    ensures target == Idle ==> Cleared(r)
    ensures target != Idle ==> r.(state := s.state) == s
  {
    if target == Idle then Snapshot(Idle, None, None, None, None, None) else s.(state := target)
  }

  /** A metadata update: the one named field becomes the payload, verbatim. */
  function SetMeta(s: Snapshot, f: MetaField, text: string): (r: Snapshot)
    ensures Meta(r, f) == Some(text)
    ensures forall g :: g != f ==> Meta(r, g) == Meta(s, g)
    ensures r.state == s.state && r.mediaImage == s.mediaImage && r.volumeDb == s.volumeDb
  {
    match f
    case Title => s.(title := Some(text))
    case Artist => s.(artist := Some(text))
    case Album => s.(album := Some(text))
  }

  /** The effect of one callback invocation. */
  function Apply(s: Snapshot, h: Handler, p: Payload): (r: Snapshot)
    requires Accepts(h, p)
    ensures Invariant(s) ==> Invariant(r)
  {
    match h
    case OnPlay => SetState(s, Playing)
    case OnPause => SetState(s, Paused)
    case OnStop => SetState(s, Idle)
    case OnMeta(f) => SetMeta(s, f, p.text)
    case OnArt => s.(mediaImage := Some(p.bytes))
    case OnVolume =>
      (match Decibels.ReadVolume(p.text)
       case None => s
       case Some(db) => s.(volumeDb := Some(db)))
    case OnPosition => s
    case OnDuration => s
  }

  /** Whether the callback signals the host that the state changed. */
  predicate Notifies(h: Handler, p: Payload)
    requires Accepts(h, p)
  {
    match h
    case OnVolume => Decibels.ReadVolume(p.text).Some?
    case OnPosition => false
    case OnDuration => false
    case _ => true
  }

  // ---------------------------------------------------------------------------
  // Single messages
  // ---------------------------------------------------------------------------

  /** A status callback sets its target whatever the current state is. */
  lemma StatusUnconditional(s: Snapshot, h: Handler, p: Payload)
    requires Accepts(h, p) && Target(h).Some?
    ensures Apply(s, h, p).state == Target(h).value
    ensures Notifies(h, p)
  {
  }

  /** Entering Idle clears title, artist, album, artwork and volume in the same step. */
  lemma StopClears(s: Snapshot, p: Payload)
    requires Accepts(OnStop, p)
    ensures Apply(s, OnStop, p) == Initial()
  {
  }

  /** Playing and Paused leave every metadata field as it was. */
  lemma PlayPauseKeepMetadata(s: Snapshot, h: Handler, p: Payload)
    requires Accepts(h, p) && (h == OnPlay || h == OnPause)
    ensures Apply(s, h, p).(state := s.state) == s
  {
  }

  /** A volume message whose first field is no number changes nothing and signals nothing. */
  lemma MalformedVolumeIgnored(s: Snapshot, text: string)
    requires Decibels.ReadVolume(text).None?
    ensures Apply(s, OnVolume, Text(text)) == s
    ensures !Notifies(OnVolume, Text(text))
  {
  }

  /** A volume message that reads as a value sets the volume to it and changes nothing else. */
  lemma VolumeSetsReading(s: Snapshot, text: string, db: real)
    requires Decibels.ReadVolume(text) == Some(db)
    ensures Apply(s, OnVolume, Text(text)) == s.(volumeDb := Some(db))
  {
    var p := Text(text);
    assert p.text == text;
    assert Decibels.ReadVolume(p.text) == Some(db);
  }

  /** A well-formed volume message sets the clamped value and nothing else. */
  lemma VolumeSetsClamped(s: Snapshot, text: string, db: real)
    requires Decibels.ParseDecimal(Decibels.TakeUntil(text, ',')) == Some(db)
    ensures Apply(s, OnVolume, Text(text)) == s.(volumeDb := Some(Decibels.Clamp(db)))
    ensures Decibels.InRange(db) ==> Apply(s, OnVolume, Text(text)).volumeDb == Some(db)
    ensures Notifies(OnVolume, Text(text))
  {
    assert Decibels.ReadVolume(text) == Some(Decibels.Clamp(db));
    VolumeSetsReading(s, text, Decibels.Clamp(db));
  }

  /** Cover art replaces the image and nothing else. */
  lemma ArtReplacesImage(s: Snapshot, bytes: seq<Byte>)
    ensures Apply(s, OnArt, Binary(bytes)) == s.(mediaImage := Some(bytes))
    ensures Notifies(OnArt, Binary(bytes))
  {
  }

  /** A metadata message sets its field to the payload, keeps the other fields, and signals the host. */
  lemma MetaSetsField(s: Snapshot, f: MetaField, text: string)
    ensures Meta(Apply(s, OnMeta(f), Text(text)), f) == Some(text)
    ensures forall g :: g != f ==> Meta(Apply(s, OnMeta(f), Text(text)), g) == Meta(s, g)
    ensures Notifies(OnMeta(f), Text(text))
  {
  }

  /** Position and duration messages are received and discarded. */
  lemma ProgressIgnored(s: Snapshot, h: Handler, p: Payload)
    requires Accepts(h, p) && (h == OnPosition || h == OnDuration)
    ensures Apply(s, h, p) == s && !Notifies(h, p)
  {
  }

  /** A volume message of `-15.0,0,0,0` shows as half volume, from any state. */
  lemma HalfVolume(s: Snapshot)
    ensures Decibels.Level(Apply(s, OnVolume, Text("-15.0,0,0,0")).volumeDb) == Some(0.5)
  {
    Decibels.ReadVolumeHalf();
    VolumeSetsReading(s, "-15.0,0,0,0", -15.0);
    Decibels.LevelEndpoints();
  }

  /** A volume message of `banana` is no number and leaves everything as it was. */
  lemma BananaIgnored(s: Snapshot)
    ensures Apply(s, OnVolume, Text("banana")) == s
  {
    Decibels.ReadVolumeBanana();
    MalformedVolumeIgnored(s, "banana");
  }

  // ---------------------------------------------------------------------------
  // Message sequences
  // ---------------------------------------------------------------------------

  datatype Event = Event(handler: Handler, payload: Payload)

  predicate WellFormed(events: seq<Event>) {
    forall i :: 0 <= i < |events| ==> Accepts(events[i].handler, events[i].payload)
  }

  /** The state after the callbacks run one after the other, each to completion. */
  function Run(s: Snapshot, events: seq<Event>): Snapshot
    requires WellFormed(events)
    decreases |events|
  {
    if events == [] then s
    else Run(Apply(s, events[0].handler, events[0].payload), events[1..])
  }

  lemma {:induction false} RunSnoc(s: Snapshot, events: seq<Event>, e: Event)
    requires WellFormed(events) && Accepts(e.handler, e.payload)
    ensures WellFormed(events + [e])
    ensures Run(s, events + [e]) == Apply(Run(s, events), e.handler, e.payload)
    decreases |events|
  {
    if events != [] {
      assert (events + [e])[1..] == events[1..] + [e];
      RunSnoc(Apply(s, events[0].handler, events[0].payload), events[1..], e);
    }
  }

  /** Whatever arrives, the volume stays on the decibel range. */
  lemma {:induction false} RunKeepsInvariant(s: Snapshot, events: seq<Event>)
    requires WellFormed(events) && Invariant(s)
    ensures Invariant(Run(s, events))
    decreases |events|
  {
    if events != [] {
      RunKeepsInvariant(Apply(s, events[0].handler, events[0].payload), events[1..]);
    }
  }

  /** Whatever came before, an `active_end` leaves the entity idle and empty. */
  lemma EndingInStopClears(s: Snapshot, events: seq<Event>, p: Payload)
    requires WellFormed(events) && p.Text?
    ensures WellFormed(events + [Event(OnStop, p)])
    ensures Run(s, events + [Event(OnStop, p)]) == Initial()
  {
    RunSnoc(s, events, Event(OnStop, p));
  }

  /** Running two sequences one after the other is running their concatenation. */
  lemma {:induction false} RunAppend(s: Snapshot, first: seq<Event>, second: seq<Event>)
    requires WellFormed(first) && WellFormed(second)
    ensures WellFormed(first + second)
    ensures Run(s, first + second) == Run(Run(s, first), second)
    decreases |first|
  {
    if first == [] {
      assert first + second == second;
    } else {
      assert (first + second)[0] == first[0];
      assert (first + second)[1..] == first[1..] + second;
      RunAppend(Apply(s, first[0].handler, first[0].payload), first[1..], second);
    }
  }

  /** No message in `events` is `active_end` or a metadata message for field `f`. */
  predicate LeavesMeta(events: seq<Event>, f: MetaField) {
    forall i :: 0 <= i < |events| ==> events[i].handler != OnStop && events[i].handler != OnMeta(f)
  }

  /** Messages that are neither `active_end` nor about field `f` leave `f` as it was. */
  lemma {:induction false} RunKeepsMeta(s: Snapshot, events: seq<Event>, f: MetaField)
    requires WellFormed(events) && LeavesMeta(events, f)
    ensures Meta(Run(s, events), f) == Meta(s, f)
    decreases |events|
  {
    if events != [] {
      var e := events[0];
      assert e.handler != OnStop && e.handler != OnMeta(f);
      var next := Apply(s, e.handler, e.payload);
      assert Meta(next, f) == Meta(s, f) by {
        match e.handler
        case OnMeta(g) => assert g != f;
        case _ =>
      }
      RunKeepsMeta(next, events[1..], f);
    }
  }

  /**
   * The last metadata message for a field wins: after it, whatever arrives
   * short of `active_end` or another message for that field, the field holds
   * that message's payload.
   */
  lemma LastMetaWins(s: Snapshot, events: seq<Event>, f: MetaField, text: string, later: seq<Event>)
    requires WellFormed(events) && WellFormed(later) && LeavesMeta(later, f)
    ensures WellFormed(events + [Event(OnMeta(f), Text(text))] + later)
    ensures Meta(Run(s, events + [Event(OnMeta(f), Text(text))] + later), f) == Some(text)
  {
    var e := Event(OnMeta(f), Text(text));
    RunSnoc(s, events, e);
    RunAppend(s, events + [e], later);
    RunKeepsMeta(Run(s, events + [e]), later, f);
  }

  /** Two title messages in a row leave the same state as the second alone. */
  lemma TitleOverwrites(s: Snapshot, first: string, second: string)
    ensures WellFormed([Event(OnMeta(Title), Text(first)), Event(OnMeta(Title), Text(second))])
    ensures Run(s, [Event(OnMeta(Title), Text(first)), Event(OnMeta(Title), Text(second))])
         == Run(s, [Event(OnMeta(Title), Text(second))])
  {
    var both := [Event(OnMeta(Title), Text(first)), Event(OnMeta(Title), Text(second))];
    assert both[1..] == [Event(OnMeta(Title), Text(second))];
    assert both[1..][1..] == [];
  }

  /** `play_start` then `active_end`: Playing in between, then Idle with everything cleared. */
  lemma PlayThenActiveEnd(s: Snapshot, p: Payload, q: Payload)
    requires p.Text? && q.Text?
    ensures WellFormed([Event(OnPlay, p), Event(OnStop, q)])
    ensures Run(s, [Event(OnPlay, p)]).state == Playing
    ensures Run(s, [Event(OnPlay, p), Event(OnStop, q)]) == Initial()
  {
    var both := [Event(OnPlay, p), Event(OnStop, q)];
    var playing := Apply(s, OnPlay, p);
    assert both[1..] == [Event(OnStop, q)];
    assert [Event(OnStop, q)][1..] == [];
    assert [Event(OnPlay, p)][1..] == [];
    assert Run(s, both) == Run(playing, [Event(OnStop, q)]);
    assert Run(playing, [Event(OnStop, q)]) == Run(Apply(playing, OnStop, q), []);
  }
}
