# Shairport Sync media player, modelled in Dafny

This project models the receiver-side core of a home-automation integration. The integration shows a Shairport Sync AirPlay receiver as a media-player entity. It talks to the receiver over MQTT. The entity subscribes to a fixed set of topics under a configured base topic. Each subscribed topic is bound to a callback. Every callback runs to completion and sets fields of the entity: the playback state, the title, artist and album, the cover art, and the volume in decibels. The host reads those fields back through derived properties. The most important derived property is the volume as a 0–1 fraction. User commands are relayed as single tokens published on `<base>/ssnc/remote`.

Modules, one per concern of the source:

- `Wrappers` (`wrappers.dfy`): `Option`, standing for Python's `X | None`.
- `Vocabulary` (`vocabulary.dfy`): the two string enumerations of `const.py`, topic segments and command tokens, as datatypes. Each has `ToString` and the by-value lookup as its inverse.
- `Decibels` (`decibels.dfy`): the −30…0 dB range, the clamp, the dB-to-fraction conversion, and the reading of a volume message. Reading a volume message means taking the text before the first comma and parsing it as a decimal number.
- `Receiver` (`receiver.dfy`): the entity's reported state as a value (`Snapshot`). It also holds the effect of each callback (`Apply`) and the state after a sequence of messages (`Run`).
- `Topics` (`topics.dfy`): stripping trailing slashes from the base topic, the `ssnc`, `ssnc/core` and `ssnc/remote` prefixes, and the twelve-entry topic table. It also holds the host's delivery of a message to the route registered for its topic (`Lookup`).
- `MediaPlayer` (`media_player.dfy`): the entity as a class. Its fields are updated in place by one method per callback. It subscribes with a loop over the topic table and publishes commands. The host's calls are recorded as state: `subscriptions` holds the routes passed to subscribe, `stateWrites` counts the state-changed signals, and `published` logs the messages handed to publish. Each callback method states its effect on the fields. `Deliver` ties the class to `Receiver.Apply`.

Three behaviours of the code that a reader might not expect, all followed by the model:

- Status callbacks set their target state whatever the current state is. `play_end` while idle gives paused, and `play_start` while paused gives playing (media_player.py:187-201). `Receiver.StatusUnconditional` states this.
- The base topic loses only its trailing slashes (`rstrip("/")`, media_player.py:145). A leading slash is kept, so `/home/` becomes `/home`.
- The description is stored as the caller passes it (media_player.py:146). Both setup paths pass `""` when the configuration has none (media_player.py:100 and :119). The constructor takes it verbatim.

## Model

| member | source | states |
|---|---|---|
| `Vocabulary.TopLevelTopic.ToString` | custom_components/shairport_sync/const.py:17-33 | each segment's wire text: non-empty and free of `/`; that the sixteen texts are the enumeration's distinct values is stated by `TopLevelTopicRoundTrip` and `TopLevelTopicTextInjective` |
| `Vocabulary.TopLevelTopicFromString` | custom_components/shairport_sync/const.py:15-33 | looking a topic segment up by its text returns a segment whose text is that string |
| `Vocabulary.TopLevelTopicRoundTrip` | custom_components/shairport_sync/const.py:15-33 | every topic segment is found again from its own text |
| `Vocabulary.TopLevelTopicTextInjective` | custom_components/shairport_sync/const.py:15-33 | distinct topic segments have distinct texts |
| `Vocabulary.Command.ToString` | custom_components/shairport_sync/const.py:37-45 | each command's published token, non-empty; that the nine tokens are the enumeration's distinct values is stated by `CommandRoundTrip` and `CommandTokenInjective` |
| `Vocabulary.CommandFromString` | custom_components/shairport_sync/const.py:35-46 | looking a command up by its token returns a command with that token |
| `Vocabulary.CommandRoundTrip` | custom_components/shairport_sync/const.py:35-46 | every command is found again from its own token |
| `Vocabulary.CommandTokenInjective` | custom_components/shairport_sync/const.py:35-46 | distinct commands publish distinct tokens |
| `Decibels.Clamp` | custom_components/shairport_sync/media_player.py:225 | the clamped value lies in [−30, 0]; it equals the input when the input is in range and the nearer bound otherwise |
| `Decibels.ClampIdempotent` | custom_components/shairport_sync/media_player.py:225 | clamping twice is clamping once |
| `Decibels.ClampMonotone` | custom_components/shairport_sync/media_player.py:225 | the clamp preserves order |
| `Decibels.Level` | custom_components/shairport_sync/media_player.py:295-298 | the fraction is absent exactly when the dB value is absent; otherwise −30 + 30·fraction gives back the dB value, and an in-range dB value gives a fraction in [0, 1] |
| `Decibels.LevelMonotone` | custom_components/shairport_sync/media_player.py:295-298 | a louder dB value never gives a smaller fraction |
| `Decibels.LevelEndpoints` | custom_components/shairport_sync/media_player.py:84-86 | −30 dB shows as 0, −15 dB as 0.5, 0 dB as 1 |
| `Decibels.LevelOnto` | custom_components/shairport_sync/media_player.py:295-298 | every fraction in [0, 1] is the level of an in-range dB value |
| `Decibels.TakeUntil` | custom_components/shairport_sync/media_player.py:222 | element 0 of `split(",")`; what it yields is stated by `TakeUntilFirstField`, `TakeUntilWhole` and `TakeUntilStops` |
| `Decibels.TakeUntilFirstField` | custom_components/shairport_sync/media_player.py:222 | element 0 of a split is a prefix of the input that holds no separator and ends at the first separator or at the end |
| `Decibels.TakeUntilWhole` | custom_components/shairport_sync/media_player.py:222 | text with no separator is its own first field |
| `Decibels.TakeUntilStops` | custom_components/shairport_sync/media_player.py:222 | whatever follows the first separator never changes the first field |
| `Decibels.ParseUnsigned` | custom_components/shairport_sync/media_player.py:222 | an unsigned decimal that parses is never negative; which text it accepts is stated by `UnsignedAccepts`, and its value by `WholeText`, `PointText` and `UnsignedText` |
| `Decibels.WholeText` | custom_components/shairport_sync/media_player.py:222 | digits alone read as their integer value (`15` is 15) |
| `Decibels.PointText` | custom_components/shairport_sync/media_player.py:222 | a point followed by digits reads as their fraction (`.5` is 0.5) |
| `Decibels.UnsignedAccepts` | custom_components/shairport_sync/media_player.py:222 | unsigned text parses exactly when it holds only digits and points, at most one point, and at least one digit; `15x`, `1.2.3` and `.` are rejected |
| `Decibels.ParseUnsignedOnly` | custom_components/shairport_sync/media_player.py:222 | unsigned text with no sign and no surrounding space is read as it stands |
| `Decibels.UnsignedEnds` | custom_components/shairport_sync/media_player.py:222 | unsigned text that parses begins and ends with a digit or the point, so the whitespace trim leaves it whole |
| `Decibels.NegateText` | custom_components/shairport_sync/media_player.py:222 | a minus sign in front of unsigned text negates its value |
| `Decibels.UnsignedText` | custom_components/shairport_sync/media_player.py:222 | `<digits>.<digits>` reads back as exactly the number written: its integer part plus its fraction |
| `Decibels.SignedText` | custom_components/shairport_sync/media_player.py:222 | any unsigned decimal text (`15`, `.5`, `15.0`) reads as its value with no sign and as the negated value after `-`; with `WholeText`, `PointText` and `UnsignedText`, `-30` and `-15.0` read back as the numbers written |
| `Decibels.ParseDecimal` | custom_components/shairport_sync/media_player.py:222 | the `float()` conversion: which text it accepts is stated by `ParseDecimalAccepts`; its value on unsigned text and after `-` or `+` by `SignedText` and `PlusText`; surrounding whitespace is ignored by `PaddingIgnored` |
| `Decibels.PlusText` | custom_components/shairport_sync/media_player.py:222 | a plus sign in front of unsigned text keeps its value (`+15` is 15) |
| `Decibels.TrimIdempotent` | custom_components/shairport_sync/media_player.py:222 | stripping the whitespace around a number twice is stripping it once |
| `Decibels.PaddingIgnored` | custom_components/shairport_sync/media_player.py:222 | whitespace around a number never changes its reading (` -15 ` reads as `-15`) |
| `Decibels.ParseDecimalAccepts` | custom_components/shairport_sync/media_player.py:222 | the conversion succeeds exactly on unsigned decimal text, with an optional `+` or `-` in front and optional surrounding whitespace |
| `Decibels.NonNumericRejected` | custom_components/shairport_sync/media_player.py:221-224 | text starting with anything other than a sign, a digit or a point does not parse |
| `Decibels.SeparatorRejected` | custom_components/shairport_sync/media_player.py:221-224 | a payload starting with U+001C is no number: `float()` does not strip that separator |
| `Decibels.ParseMinus15` | custom_components/shairport_sync/media_player.py:222 | `-15.0` parses as −15 |
| `Decibels.ReadVolume` | custom_components/shairport_sync/media_player.py:220-225 | a volume message yields a value exactly when its first field parses; the value is in range, and it is the parsed value itself when that is already in range |
| `Decibels.ReadVolumeFirstField` | custom_components/shairport_sync/media_player.py:222 | later comma-separated fields of a volume message never matter: `<field>,<rest>` reads as `<field>` alone |
| `Decibels.ReadVolumeOfNumber` | custom_components/shairport_sync/media_player.py:220-225 | a volume message whose first field is a number sets that number, clamped, whatever follows the comma |
| `Decibels.ReadVolumeHalf` | custom_components/shairport_sync/media_player.py:220-225 | the message `-15.0,0,0,0` reads as −15 dB |
| `Decibels.ReadVolumeBanana` | custom_components/shairport_sync/media_player.py:220-224 | the message `banana` is dropped |
| `Receiver.SetState` | custom_components/shairport_sync/media_player.py:187-192 | the state becomes the target; entering Idle clears title, artist, album, artwork and volume; any other target changes nothing but the state |
| `Receiver.SetMeta` | custom_components/shairport_sync/media_player.py:207-212 | the named field becomes the payload verbatim; the other two fields, the state, artwork and volume are unchanged |
| `Receiver.Apply` | custom_components/shairport_sync/media_player.py:186-235 | every callback keeps the volume, when known, inside [−30, 0] |
| `Receiver.Notifies` | custom_components/shairport_sync/media_player.py:186-235 | which callbacks call `async_write_ha_state`; stated case by case by `StatusUnconditional`, `MetaSetsField`, `ArtReplacesImage`, `MalformedVolumeIgnored`, `VolumeSetsClamped` and `ProgressIgnored` |
| `Receiver.StatusUnconditional` | custom_components/shairport_sync/media_player.py:187-205 | a status callback sets its target whatever the current state, and always signals the host |
| `Receiver.StopClears` | custom_components/shairport_sync/media_player.py:203-205 | `active_end` leaves exactly the initial state: Idle with nothing else known |
| `Receiver.PlayPauseKeepMetadata` | custom_components/shairport_sync/media_player.py:195-201 | play and pause callbacks change nothing but the state |
| `Receiver.MalformedVolumeIgnored` | custom_components/shairport_sync/media_player.py:220-224 | a volume message whose first field is no number changes nothing and does not signal the host |
| `Receiver.VolumeSetsReading` | custom_components/shairport_sync/media_player.py:220-226 | a volume message that reads as a value sets the volume to it and changes nothing else |
| `Receiver.VolumeSetsClamped` | custom_components/shairport_sync/media_player.py:220-226 | a parsed volume is stored clamped, unchanged when in range, and signals the host |
| `Receiver.MetaSetsField` | custom_components/shairport_sync/media_player.py:207-212 | a metadata message sets its field to the payload, keeps the other two fields, and signals the host |
| `Receiver.ArtReplacesImage` | custom_components/shairport_sync/media_player.py:214-217 | cover art replaces the image and nothing else, and signals the host |
| `Receiver.ProgressIgnored` | custom_components/shairport_sync/media_player.py:228-235 | position and duration messages change nothing and signal nothing |
| `Receiver.HalfVolume` | custom_components/shairport_sync/media_player.py:219-226 | after `-15.0,0,0,0` the reported fraction is 0.5, from any state |
| `Receiver.BananaIgnored` | custom_components/shairport_sync/media_player.py:219-224 | after `banana` the state is as before |
| `Receiver.Run` | custom_components/shairport_sync/media_player.py:186-235 | callbacks run one after the other, each to completion; stated by `RunSnoc` and `RunAppend` |
| `Receiver.RunSnoc` | custom_components/shairport_sync/media_player.py:186-235 | one more message after a sequence is that message's callback applied to the state the sequence left |
| `Receiver.RunAppend` | custom_components/shairport_sync/media_player.py:186-235 | two sequences run one after the other give the state of their concatenation |
| `Receiver.RunKeepsMeta` | custom_components/shairport_sync/media_player.py:187-235 | messages that are neither `active_end` nor metadata for a field leave that field as it was |
| `Receiver.RunKeepsInvariant` | custom_components/shairport_sync/media_player.py:225 | over any sequence of messages the volume, when known, stays in [−30, 0] |
| `Receiver.EndingInStopClears` | custom_components/shairport_sync/media_player.py:187-192 | whatever came before, a sequence ending in `active_end` leaves the initial state |
| `Receiver.LastMetaWins` | custom_components/shairport_sync/media_player.py:187-212 | after a metadata message for a field, followed by any messages other than `active_end` and further metadata for that field, the field holds that message's payload |
| `Receiver.TitleOverwrites` | custom_components/shairport_sync/media_player.py:207-212 | two title messages leave the same state as the second alone; no history is kept |
| `Receiver.PlayThenActiveEnd` | custom_components/shairport_sync/media_player.py:195-205 | `play_start` gives Playing; following it with `active_end` gives the initial state |
| `Topics.StripTrailingSlashes` | custom_components/shairport_sync/media_player.py:145 | the stored base topic is a prefix of the configured one, does not end in `/`, and only slashes were removed |
| `Topics.StripTrailingSlashesUnique` | custom_components/shairport_sync/media_player.py:145 | any prefix with those three properties is the stripped topic |
| `Topics.StripTrailingSlashesIdempotent` | custom_components/shairport_sync/media_player.py:145 | stripping an already stripped topic changes nothing |
| `Topics.SubscriptionTopic` | custom_components/shairport_sync/media_player.py:240-253 | the topic a segment is subscribed on; spelled out by `SubscriptionTopicText` |
| `Topics.SubscriptionTopicText` | custom_components/shairport_sync/media_player.py:240-253 | a segment's topic is `<base>/ssnc/<segment>`, or `<base>/ssnc/core/<segment>` for the five core segments |
| `Topics.RemoteTopic` | custom_components/shairport_sync/media_player.py:164 | where commands are published; spelled out by `RemoteTopicText` |
| `Topics.TopicShape` | custom_components/shairport_sync/media_player.py:182-183 | every subscribed topic and the remote topic start with `<base>/ssnc/`; core topics continue with `core/` |
| `Topics.SubscriptionTopicInjective` | custom_components/shairport_sync/media_player.py:182-183 | two segments give the same subscription topic only when they are the same segment |
| `Topics.Lookup` | custom_components/shairport_sync/media_player.py:256-258 | a found route is registered and has the message's topic; no route is found only when no registered route has that topic |
| `Topics.LookupFindsKey` | custom_components/shairport_sync/media_player.py:256-258 | when registered topics are distinct, each one reaches its own route |
| `Topics.TopicMap` | custom_components/shairport_sync/media_player.py:238-254 | the topic table, one route per subscribed segment in table order; its meaning is stated by `TopicMapKeysDistinct`, `DispatchTable` and `TopicMapConsistent` |
| `Topics.HandlerFor` | custom_components/shairport_sync/media_player.py:240-253 | the callback column of the table; stated through `DispatchTable` and `DeliverOnSegment` |
| `Topics.EncodingFor` | custom_components/shairport_sync/media_player.py:240-253 | the encoding column of the table: raw bytes for cover art only, as `TopicMapConsistent` states |
| `Topics.TopicMapKeysDistinct` | custom_components/shairport_sync/media_player.py:238-254 | the twelve table topics are pairwise distinct, for every base topic |
| `Topics.DispatchTable` | custom_components/shairport_sync/media_player.py:238-254 | a message on a subscribed segment's topic reaches exactly the callback and encoding the table gives that segment |
| `Topics.RemoteTopicText` | custom_components/shairport_sync/media_player.py:164 | the command topic is `<base>/ssnc/remote` |
| `Topics.RemoteNotSubscribed` | custom_components/shairport_sync/media_player.py:164 | the command topic is not one of the subscribed topics |
| `Topics.TopicMapConsistent` | custom_components/shairport_sync/media_player.py:245 | a table entry takes raw bytes exactly when its callback is the cover-art one |
| `MediaPlayer.ShairportSyncMediaPlayer.constructor` | custom_components/shairport_sync/media_player.py:136-164 | a new entity is Idle with no title, artist, album, image or volume; its base topic has its trailing slashes stripped; its remote topic is the stripped base's `ssnc/remote` topic |
| `MediaPlayer.ShairportSyncMediaPlayer.SubscribeTopics` | custom_components/shairport_sync/media_player.py:180-258 | the entity subscribes to exactly its twelve-entry topic table, in table order |
| `MediaPlayer.ShairportSyncMediaPlayer.Subscribe` | custom_components/shairport_sync/media_player.py:256-258 | the loop appends every route, in order, to the subscriptions, keeping each route's encoding consistent with its callback |
| `MediaPlayer.ShairportSyncMediaPlayer.SetState` | custom_components/shairport_sync/media_player.py:187-193 | the state becomes the target; Idle wipes metadata, artwork and volume; other targets keep them; the host is signalled once |
| `MediaPlayer.ShairportSyncMediaPlayer.HandlePlay` | custom_components/shairport_sync/media_player.py:195-197 | only the state changes, to Playing; one signal |
| `MediaPlayer.ShairportSyncMediaPlayer.HandlePause` | custom_components/shairport_sync/media_player.py:199-201 | only the state changes, to Paused; one signal |
| `MediaPlayer.ShairportSyncMediaPlayer.HandleStop` | custom_components/shairport_sync/media_player.py:203-205 | the entity returns to its initial state; one signal |
| `MediaPlayer.ShairportSyncMediaPlayer.HandleMeta` | custom_components/shairport_sync/media_player.py:207-212 | the named field becomes the payload verbatim; the other two keep their values; one signal |
| `MediaPlayer.ShairportSyncMediaPlayer.HandleCover` | custom_components/shairport_sync/media_player.py:214-217 | the image becomes the payload bytes; one signal |
| `MediaPlayer.ShairportSyncMediaPlayer.HandleVolume` | custom_components/shairport_sync/media_player.py:219-226 | a malformed message changes nothing and sends no signal; otherwise the volume becomes the clamped reading, with one signal |
| `MediaPlayer.ShairportSyncMediaPlayer.HandlePosition` | custom_components/shairport_sync/media_player.py:229-231 | nothing changes; the extra attributes hold only the description |
| `MediaPlayer.ShairportSyncMediaPlayer.HandleDuration` | custom_components/shairport_sync/media_player.py:233-235 | nothing changes; the extra attributes hold only the description |
| `MediaPlayer.ShairportSyncMediaPlayer.Deliver` | custom_components/shairport_sync/media_player.py:256-258 | a message on an unsubscribed topic changes nothing; otherwise the reported state is the subscribed callback's effect, with one signal exactly when that callback signals |
| `MediaPlayer.ShairportSyncMediaPlayer.VolumeLevel` | custom_components/shairport_sync/media_player.py:294-298 | absent exactly when no volume is known; otherwise in [0, 1] and mapping back to the dB value |
| `MediaPlayer.ShairportSyncMediaPlayer.MediaImageHash` | custom_components/shairport_sync/media_player.py:288-292 | absent exactly when there is no image or it is empty; otherwise the digest of the image |
| `MediaPlayer.ShairportSyncMediaPlayer.ExtraStateAttributes` | custom_components/shairport_sync/media_player.py:304-311 | always holds the description; holds duration or position exactly when known, and no other key |
| `MediaPlayer.ShairportSyncMediaPlayer.PublishCmd` | custom_components/shairport_sync/media_player.py:317-319 | exactly one message is appended to the publish log: the command's token on the remote topic |
| `MediaPlayer.ShairportSyncMediaPlayer.MediaPlay` | custom_components/shairport_sync/media_player.py:321-322 | publishes exactly `play` to `<base>/ssnc/remote` |
| `MediaPlayer.ShairportSyncMediaPlayer.MediaPause` | custom_components/shairport_sync/media_player.py:324-325 | publishes exactly `pause` to `<base>/ssnc/remote` |
| `MediaPlayer.ShairportSyncMediaPlayer.MediaStop` | custom_components/shairport_sync/media_player.py:327-328 | publishes exactly `stop` to `<base>/ssnc/remote` |
| `MediaPlayer.DeliverOnSegment` | custom_components/shairport_sync/media_player.py:238-254 | on a subscribed entity, a message on a segment's topic has exactly the effect of the callback the table names for it |
| `MediaPlayer.ActiveEndAfterPlayStart` | custom_components/shairport_sync/media_player.py:187-205 | `play_start` then `active_end` leaves a subscribed entity in its initial state after two signals, publishing nothing |
| `MediaPlayer.HalfVolumeMessage` | custom_components/shairport_sync/media_player.py:219-226 | after `-15.0,0,0,0` a subscribed entity reports volume 0.5 |
| `MediaPlayer.MalformedVolumeMessage` | custom_components/shairport_sync/media_player.py:219-224 | after a volume message whose first field is no number, a subscribed entity's state and volume level are unchanged, and no signal is sent |

## Left out

- The host's subscribe, publish and state-write calls are not modelled as calls. The model records them in three fields: `subscriptions`, `published` and `stateWrites`. The host's `hass` handle is not modelled.
- Entity lifecycle: `async_added_to_hass` calls the host's base hook, then `SubscribeTopics`. `async_will_remove_from_hass` calls the unsubscribe handles, which belong to the host and are not modelled.
- Deliver: the entity subscribes once in its lifetime, so every topic has one subscription. If `SubscribeTopics` ran twice, MQTT would run each duplicate callback, but `Deliver` runs only the first matching route.
- The UTF-8 decoding of payloads belongs to the host. A payload reaches a callback already decoded as text, or as raw bytes for cover art.
- The number conversion accepts an optional sign and digits with an optional decimal point. It strips the six ASCII whitespace characters that Python's `float()` strips around a number: space, tab, newline, vertical tab, form feed and carriage return. It does not accept exponents, digit-group underscores, `inf`/`nan` or non-ASCII digits, and it does not strip non-ASCII whitespace such as U+0085, U+00A0 and U+2000. Python's `float()` accepts all of these. With a NaN, Python's min/max clamp would let the value through. That is floating-point behaviour, and the model uses exact reals.
- The `IndexError` branch of the volume callback is not modelled separately. A split always yields at least one field.
- The MD5 digest of the cover art is a library call. `MediaImageHash` takes the digest function as a parameter.
- `async_media_next_track`, `async_media_previous_track` and the volume-step and volume-set commands are not modelled; only play, pause and stop are. Their tokens are in `Vocabulary.Command`.
- YAML platform schema, topic validation, `async_setup_platform` and `async_setup_entry`: these are configuration plumbing that passes name, topic and description to the constructor. `config_flow.py` is not part of this model. It is a single form with no logic.
- Fixed entity metadata: device class, supported-feature flags, `media_content_type` (always music), and the plain field reads `name`, `state`, `media_title`, `media_artist`, `media_album_name`. The reads of `state`, `media_title`, `media_artist` and `media_album_name` are covered by `Snap()`; `name` is the class's constant field `name`.
- The progress placeholders `_duration`, `_position` and `_last_position_update` are never given a value. The model keeps `duration` and `position` as always absent. It omits `_last_position_update`.
- Logging.
