/**
 * The media-player entity for one Shairport Sync instance. Its fields are
 * written only by the MQTT callbacks below, each running to completion; the
 * host's calls are modelled by what they leave behind: the routes it
 * subscribed (`subscriptions`), the number of state-changed signals it
 * received (`stateWrites`) and the messages it published (`published`).
 */
module MediaPlayer {
  import opened Wrappers
  import opened Vocabulary
  import opened Topics
  import Receiver
  import Decibels

  /** One message handed to the host for publishing. */
  datatype Publication = Publication(topic: string, payload: string)

  /** A value in the entity's extra state attributes. */
  datatype AttributeValue = Str(s: string) | Num(r: real)

  /** The host decodes a payload as text unless the route asked for raw bytes. */
  predicate Decodes(e: Encoding, p: Receiver.Payload) {
    if e == Raw then p.Binary? else p.Text?
  }

  class ShairportSyncMediaPlayer {
    const name: string
    const baseTopic: string
    const description: string
    const remoteTopic: string

    var state: Receiver.PlayerState
    var title: Option<string>
    var artist: Option<string>
    var album: Option<string>
    var mediaImage: Option<seq<Receiver.Byte>>
    var volumeDb: Option<real>
    // Progress placeholders: declared, never given a value.
    var duration: Option<real>
    var position: Option<real>

    var subscriptions: seq<Route>
    var stateWrites: nat
    var published: seq<Publication>

    ghost predicate Valid()
      reads this
    {
      && !EndsWithSlash(baseTopic)
      && remoteTopic == RemoteTopic(baseTopic)
      && Receiver.Invariant(Snap())
      && duration.None? && position.None?
      && forall r :: r in subscriptions ==> Consistent(r)
    }

    /** The receiver state the entity reports. */
    function Snap(): Receiver.Snapshot
      reads this
    {
      Receiver.Snapshot(state, title, artist, album, mediaImage, volumeDb)
    }

    constructor (name: string, baseTopic: string, description: string)
      ensures Valid()
      ensures this.name == name && this.description == description
      ensures this.baseTopic == StripTrailingSlashes(baseTopic)
      ensures remoteTopic == RemoteTopic(this.baseTopic)
      ensures Snap() == Receiver.Initial()
      ensures subscriptions == [] && stateWrites == 0 && published == []
    {
      this.name := name;
      var stripped := StripTrailingSlashes(baseTopic);
      this.baseTopic := stripped;
      this.description := description;
      this.remoteTopic := RemoteTopic(stripped);
      state := Receiver.Idle;
      title, artist, album := None, None, None;
      mediaImage := None;
      volumeDb := None;
      duration, position := None, None;
      subscriptions := [];
      stateWrites := 0;
      published := [];
    }

    /** Registers every entry of the topic table, in table order. */
    method SubscribeTopics()
      requires Valid()
      modifies this`subscriptions
      ensures Valid()
      ensures subscriptions == old(subscriptions) + TopicMap(baseTopic)
    {
      TopicMapConsistent(baseTopic);
      Subscribe(TopicMap(baseTopic));
    }

    /** The subscription loop: one host subscription per route, appended in order. */
    method Subscribe(routes: seq<Route>)
      requires Valid()
      requires forall i :: 0 <= i < |routes| ==> Consistent(routes[i])
      modifies this`subscriptions
      ensures Valid()
      ensures subscriptions == old(subscriptions) + routes
    {
      var i := 0;
      while i < |routes|
        invariant 0 <= i <= |routes|
        invariant subscriptions == old(subscriptions) + routes[..i]
        invariant Valid()
      {
        assert Consistent(routes[i]);
        subscriptions := subscriptions + [routes[i]];
        i := i + 1;
      }
    }

    // -------------------------------------------------------------------------
    // Callbacks
    // -------------------------------------------------------------------------

    /** Sets the playback state; entering Idle also wipes metadata, artwork and volume. */
    method SetState(target: Receiver.PlayerState)
      requires Valid()
      modifies this`state, this`title, this`artist, this`album, this`mediaImage, this`volumeDb, this`stateWrites
      ensures Valid()
      ensures state == target
      ensures target == Receiver.Idle ==> Receiver.Cleared(Snap())
      ensures target != Receiver.Idle ==>
        title == old(title) && artist == old(artist) && album == old(album)
        && mediaImage == old(mediaImage) && volumeDb == old(volumeDb)
      ensures stateWrites == old(stateWrites) + 1
    {
      state := target;
      if target == Receiver.Idle {
        title, artist, album := None, None, None;
        mediaImage := None;
        volumeDb := None;
      }
      stateWrites := stateWrites + 1;
    }

    method HandlePlay()
      requires Valid()
      modifies this`state, this`title, this`artist, this`album, this`mediaImage, this`volumeDb, this`stateWrites
      ensures Valid()
      ensures Snap() == old(Snap()).(state := Receiver.Playing)
      ensures stateWrites == old(stateWrites) + 1
    {
      SetState(Receiver.Playing);
    }

    method HandlePause()
      requires Valid()
      modifies this`state, this`title, this`artist, this`album, this`mediaImage, this`volumeDb, this`stateWrites
      ensures Valid()
      ensures Snap() == old(Snap()).(state := Receiver.Paused)
      ensures stateWrites == old(stateWrites) + 1
    {
      SetState(Receiver.Paused);
    }

    method HandleStop()
      requires Valid()
      modifies this`state, this`title, this`artist, this`album, this`mediaImage, this`volumeDb, this`stateWrites
      ensures Valid()
      ensures Snap() == Receiver.Initial()
      ensures stateWrites == old(stateWrites) + 1
    {
      SetState(Receiver.Idle);
    }

    /** Replaces one metadata field with the payload, verbatim. */
    method HandleMeta(field: Receiver.MetaField, payload: string)
      requires Valid()
      modifies this`title, this`artist, this`album, this`stateWrites
      ensures Valid()
      ensures Receiver.Meta(Snap(), field) == Some(payload)
      ensures forall g :: g != field ==> Receiver.Meta(Snap(), g) == Receiver.Meta(old(Snap()), g)
      ensures Snap() == Receiver.SetMeta(old(Snap()), field, payload)
      ensures stateWrites == old(stateWrites) + 1
    {
      match field {
        case Title => title := Some(payload);
        case Artist => artist := Some(payload);
        case Album => album := Some(payload);
      }
      stateWrites := stateWrites + 1;
    }

    /** Replaces the cover art with the payload bytes. */
    method HandleCover(payload: seq<Receiver.Byte>)
      requires Valid()
      modifies this`mediaImage, this`stateWrites
      ensures Valid()
      ensures mediaImage == Some(payload)
      ensures stateWrites == old(stateWrites) + 1
    {
      mediaImage := Some(payload);
      stateWrites := stateWrites + 1;
    }

    /** Reads the first comma-separated field as decibels and stores it clamped; drops a non-number. */
    method HandleVolume(payload: string)
      requires Valid()
      modifies this`volumeDb, this`stateWrites
      ensures Valid()
      ensures Decibels.ReadVolume(payload).None? ==>
        volumeDb == old(volumeDb) && stateWrites == old(stateWrites)
      ensures Decibels.ReadVolume(payload).Some? ==>
        volumeDb == Decibels.ReadVolume(payload) && stateWrites == old(stateWrites) + 1
    {
      var reading := Decibels.ReadVolume(payload);
      if reading.None? {
        return;
      }
      volumeDb := reading;
      stateWrites := stateWrites + 1;
    }

    /** Position messages are received and discarded: the attributes keep only the description. */
    method HandlePosition(payload: string)
      requires Valid()
      ensures ExtraStateAttributes() == map["description" := Str(description)]
    {
    }

    /** Duration messages are received and discarded: the attributes keep only the description. */
    method HandleDuration(payload: string)
      requires Valid()
      ensures ExtraStateAttributes() == map["description" := Str(description)]
    {
    }

    /** The host delivers a message to the callback subscribed for its topic. */
    method Deliver(topic: string, payload: Receiver.Payload)
      requires Valid()
      requires Lookup(subscriptions, topic).Some? ==> Decodes(Lookup(subscriptions, topic).value.encoding, payload)
      modifies this`state, this`title, this`artist, this`album, this`mediaImage, this`volumeDb, this`stateWrites
      ensures Valid()
      ensures Lookup(subscriptions, topic).None? ==> Snap() == old(Snap()) && stateWrites == old(stateWrites)
      ensures Lookup(subscriptions, topic).Some? ==>
        var h := Lookup(subscriptions, topic).value.handler;
        Receiver.Accepts(h, payload)
        && Snap() == Receiver.Apply(old(Snap()), h, payload)
        && stateWrites == old(stateWrites) + (if Receiver.Notifies(h, payload) then 1 else 0)
    {
      var route := Lookup(subscriptions, topic);
      if route.None? {
        return;
      }
      var h := route.value.handler;
      assert Consistent(route.value);
      if h == Receiver.OnPlay {
        HandlePlay();
      } else if h == Receiver.OnPause {
        HandlePause();
      } else if h == Receiver.OnStop {
        HandleStop();
      } else if h.OnMeta? {
        HandleMeta(h.field, payload.text);
      } else if h == Receiver.OnArt {
        HandleCover(payload.bytes);
      } else if h == Receiver.OnVolume {
        HandleVolume(payload.text);
      } else if h == Receiver.OnPosition {
        HandlePosition(payload.text);
      } else {
        HandleDuration(payload.text);
      }
    }

    // -------------------------------------------------------------------------
    // Reported state
    // -------------------------------------------------------------------------

    /** The volume as a fraction of the decibel range, absent when no volume is known. */
    function VolumeLevel(): (r: Option<real>)
      reads this
      requires Valid()
      ensures r.None? <==> volumeDb.None?
      ensures r.Some? ==> 0.0 <= r.value <= 1.0
      ensures r.Some? ==> Decibels.MinDb + r.value * Decibels.DbRange == volumeDb.value
    {
      Decibels.Level(volumeDb)
    }

    /** The artwork's digest for change detection; absent when there is no artwork or it is empty. */
    function MediaImageHash(digest: seq<Receiver.Byte> -> string): (r: Option<string>)
      reads this
      ensures r.None? <==> mediaImage.None? || mediaImage.value == []
      ensures r.Some? ==> r.value == digest(mediaImage.value)
    {
      if mediaImage.Some? && mediaImage.value != [] then Some(digest(mediaImage.value)) else None
    }

    /** The description, plus duration and position when known. */
    function ExtraStateAttributes(): (attrs: map<string, AttributeValue>)
      reads this
      ensures "description" in attrs && attrs["description"] == Str(description)
      ensures "duration" in attrs <==> duration.Some?
      ensures "position" in attrs <==> position.Some?
      ensures forall k :: k in attrs ==> k == "description" || k == "duration" || k == "position"
    {
      var base := map["description" := Str(description)];
      var withDuration := if duration.Some? then base["duration" := Num(duration.value)] else base;
      if position.Some? then withDuration["position" := Num(position.value)] else withDuration
    }

    // -------------------------------------------------------------------------
    // Commands
    // -------------------------------------------------------------------------

    /** Publishes one command token to the remote-control topic. */
    method PublishCmd(cmd: Command)
      requires Valid()
      modifies this`published
      ensures Valid()
      ensures published == old(published) + [Publication(remoteTopic, cmd.ToString())]
    {
      published := published + [Publication(remoteTopic, cmd.ToString())];
    }

    method MediaPlay()
      requires Valid()
      modifies this`published
      ensures Valid()
      ensures published == old(published) + [Publication(RemoteTopic(baseTopic), "play")]
    {
      PublishCmd(Play);
    }

    method MediaPause()
      requires Valid()
      modifies this`published
      ensures Valid()
      ensures published == old(published) + [Publication(RemoteTopic(baseTopic), "pause")]
    {
      PublishCmd(Pause);
    }

    method MediaStop()
      requires Valid()
      modifies this`published
      ensures Valid()
      ensures published == old(published) + [Publication(RemoteTopic(baseTopic), "stop")]
    {
      PublishCmd(Stop);
    }
  }

  /**
   * A message published on `<base>/ssnc/<segment>` (or `<base>/ssnc/core/<segment>`)
   * to a subscribed entity runs the callback its table entry names, and only that one.
   */
  method DeliverOnSegment(player: ShairportSyncMediaPlayer, seg: TopLevelTopic, payload: Receiver.Payload)
    requires player.Valid() && player.subscriptions == TopicMap(player.baseTopic)
    requires seg in Subscribed && Decodes(EncodingFor(seg), payload)
    modifies player
    ensures player.Valid() && player.subscriptions == old(player.subscriptions)
    ensures player.published == old(player.published)
    ensures var h := HandlerFor(seg);
      && Receiver.Accepts(h, payload)
      && player.Snap() == Receiver.Apply(old(player.Snap()), h, payload)
      && player.stateWrites == old(player.stateWrites) + (if Receiver.Notifies(h, payload) then 1 else 0)
  {
    var topic := SubscriptionTopic(player.baseTopic, seg);
    var route := RouteFor(player.baseTopic, seg);
    DispatchTable(player.baseTopic, seg);
    assert Lookup(player.subscriptions, topic) == Some(route);
    player.Deliver(topic, payload);
  }

  /**
   * A subscribed entity receives `play_start` and then `active_end`: it is
   * Playing in between and ends Idle with nothing kept, having signalled the
   * host twice, whatever it held before.
   */
  method ActiveEndAfterPlayStart(player: ShairportSyncMediaPlayer, first: string, second: string)
    requires player.Valid() && player.subscriptions == TopicMap(player.baseTopic)
    modifies player
    ensures player.Valid()
    ensures player.Snap() == Receiver.Initial()
    ensures player.stateWrites == old(player.stateWrites) + 2
    ensures player.published == old(player.published)
  {
    assert Subscribed[0] == PlayStart && Subscribed[4] == ActiveEnd;
    assert HandlerFor(PlayStart) == Receiver.OnPlay && HandlerFor(ActiveEnd) == Receiver.OnStop;
    DeliverOnSegment(player, PlayStart, Receiver.Text(first));
    assert player.state == Receiver.Playing;
    Receiver.StopClears(player.Snap(), Receiver.Text(second));
    DeliverOnSegment(player, ActiveEnd, Receiver.Text(second));
  }

  /** A subscribed entity sent `-15.0,0,0,0` on its volume topic reports half volume. */
  method HalfVolumeMessage(player: ShairportSyncMediaPlayer)
    requires player.Valid() && player.subscriptions == TopicMap(player.baseTopic)
    modifies player
    ensures player.Valid()
    ensures player.VolumeLevel() == Some(0.5)
  {
    ghost var before := player.Snap();
    DeliverOnSegment(player, Volume, Receiver.Text("-15.0,0,0,0"));
    Receiver.HalfVolume(before);
  }

  /**
   * A subscribed entity sent a volume message whose first field is no number
   * (`banana`, say) keeps its state and volume and signals nothing.
   */
  method MalformedVolumeMessage(player: ShairportSyncMediaPlayer, text: string)
    requires player.Valid() && player.subscriptions == TopicMap(player.baseTopic)
    requires Decibels.ParseDecimal(Decibels.TakeUntil(text, ',')).None?
    modifies player
    ensures player.Valid()
    ensures player.Snap() == old(player.Snap())
    ensures player.VolumeLevel() == old(player.VolumeLevel())
    ensures player.stateWrites == old(player.stateWrites)
  {
    ghost var before := player.Snap();
    Receiver.MalformedVolumeIgnored(before, text);
    DeliverOnSegment(player, Volume, Receiver.Text(text));
  }
}
