/**
 * The topic strings of one receiver: the configured base topic without its
 * trailing slashes, the `ssnc`, `ssnc/core` and `ssnc/remote` prefixes built on
 * it, and the table that binds each subscribed topic to its callback.
 */
module Topics {
  import opened Wrappers
  import opened Vocabulary
  import Receiver

  predicate EndsWithSlash(s: string) {
    s != [] && s[|s| - 1] == '/'
  }

  /** The base topic with every trailing `/` removed. */
  function StripTrailingSlashes(s: string): (r: string)
    ensures r <= s
    ensures !EndsWithSlash(r)
    ensures forall i :: |r| <= i < |s| ==> s[i] == '/'
  {
    if EndsWithSlash(s) then StripTrailingSlashes(s[..|s| - 1]) else s
  }

  /** The three properties above pin the stripped topic down: any prefix with them is it. */
  lemma StripTrailingSlashesUnique(s: string, r: string)
    requires r <= s && !EndsWithSlash(r)
    requires forall i :: |r| <= i < |s| ==> s[i] == '/'
    ensures r == StripTrailingSlashes(s)
  {
    var t := StripTrailingSlashes(s);
    assert |t| > 0 ==> t[|t| - 1] == s[|t| - 1];
    assert |r| > 0 ==> r[|r| - 1] == s[|r| - 1];
  }

  lemma StripTrailingSlashesIdempotent(s: string)
    ensures StripTrailingSlashes(StripTrailingSlashes(s)) == StripTrailingSlashes(s)
  {
  }

  /** `prefix/segment`. */
  function Under(prefix: string, seg: TopLevelTopic): string {
    prefix + "/" + seg.ToString()
  }

  function SsncPrefix(base: string): string {
    Under(base, Ssnc)
  }

  function CorePrefix(base: string): string {
    Under(SsncPrefix(base), Core)
  }

  /** Where commands are published. */
  function RemoteTopic(base: string): string {
    Under(SsncPrefix(base), Remote)
  }

  /** Commands go to `<base>/ssnc/remote`. */
  lemma RemoteTopicText(base: string)
    ensures RemoteTopic(base) == base + "/ssnc/remote"
  {
    assert Ssnc.ToString() == "ssnc" && Remote.ToString() == "remote";
  }

  /** How the host hands a subscribed topic's payload to its callback. */
  datatype Encoding = Utf8 | Raw

  /** One entry of the topic table: a topic, its callback and its payload encoding. */
  datatype Route = Route(topic: string, handler: Receiver.Handler, encoding: Encoding)

  /** The segments the entity subscribes to, in the order of its topic table. */
  const Subscribed: seq<TopLevelTopic> :=
    [PlayStart, PlayResume, PlayEnd, PlayFlush, ActiveEnd, Cover, Volume,
     Artist, Album, Title, Position, Duration]

  /** The segments that live under `ssnc/core` rather than directly under `ssnc`. */
  predicate UnderCore(seg: TopLevelTopic) {
    seg == Artist || seg == Album || seg == Title || seg == Position || seg == Duration
  }

  function SubscriptionTopic(base: string, seg: TopLevelTopic): string {
    if UnderCore(seg) then Under(CorePrefix(base), seg) else Under(SsncPrefix(base), seg)
  }

  /** Concatenation regrouped so that the separators and names between two parts come together. */
  lemma Regroup(a: string, b: string, c: string, d: string, x: string)
    ensures a + b + c + d + x == a + (b + c + d) + x
  {
  }

  /** Subscription topics spelled out: `<base>/ssnc/<segment>` or `<base>/ssnc/core/<segment>`. */
  lemma SubscriptionTopicText(base: string, seg: TopLevelTopic)
    ensures !UnderCore(seg) ==> SubscriptionTopic(base, seg) == base + "/ssnc/" + seg.ToString()
    ensures UnderCore(seg) ==> SubscriptionTopic(base, seg) == base + "/ssnc/core/" + seg.ToString()
  {
    var x := seg.ToString();
    assert Ssnc.ToString() == "ssnc" && Core.ToString() == "core";
    assert "/" + "ssnc" + "/" == "/ssnc/";
    Regroup(base, "/", "ssnc", "/", x);
    if UnderCore(seg) {
      var ssnc := base + "/" + "ssnc";
      assert "/" + "core" + "/" == "/core/";
      assert "/ssnc" + "/core/" == "/ssnc/core/";
      Regroup(ssnc, "/", "core", "/", x);
      assert ssnc + "/core/" + x == base + "/ssnc/core/" + x;
    }
  }

  function HandlerFor(seg: TopLevelTopic): Receiver.Handler
    requires seg in Subscribed
  {
    match seg
    case PlayStart => Receiver.OnPlay
    case PlayResume => Receiver.OnPlay
    case PlayEnd => Receiver.OnPause
    case PlayFlush => Receiver.OnPause
    case ActiveEnd => Receiver.OnStop
    case Cover => Receiver.OnArt
    case Volume => Receiver.OnVolume
    case Artist => Receiver.OnMeta(Receiver.Artist)
    case Album => Receiver.OnMeta(Receiver.Album)
    case Title => Receiver.OnMeta(Receiver.Title)
    case Position => Receiver.OnPosition
    case Duration => Receiver.OnDuration
    case Ssnc => assert false; Receiver.OnPosition
    case Core => assert false; Receiver.OnPosition
    case Remote => assert false; Receiver.OnPosition
    case Seek => assert false; Receiver.OnPosition
  }

  /** Cover art is subscribed without decoding; everything else as UTF-8 text. */
  function EncodingFor(seg: TopLevelTopic): Encoding {
    if seg == Cover then Raw else Utf8
  }

  function RouteFor(base: string, seg: TopLevelTopic): Route
    requires seg in Subscribed
  {
    Route(SubscriptionTopic(base, seg), HandlerFor(seg), EncodingFor(seg))
  }

  /** The entity's topic table for a base topic, in subscription order. */
  function TopicMap(base: string): (m: seq<Route>)
    ensures |m| == |Subscribed|
    ensures forall i :: 0 <= i < |m| ==> m[i] == RouteFor(base, Subscribed[i])
  {
    seq(|Subscribed|, i requires 0 <= i < |Subscribed| => RouteFor(base, Subscribed[i]))
  }

  /** The host's delivery: the route registered for a topic, if any. */
  function Lookup(routes: seq<Route>, topic: string): (r: Option<Route>)
    ensures r.Some? ==> r.value in routes && r.value.topic == topic
    ensures r.None? ==> forall i :: 0 <= i < |routes| ==> routes[i].topic != topic
  {
    if routes == [] then None
    else if routes[0].topic == topic then Some(routes[0])
    else Lookup(routes[1..], topic)
  }

  predicate KeysDistinct(routes: seq<Route>) {
    forall i, j :: 0 <= i < j < |routes| ==> routes[i].topic != routes[j].topic
  }

  /** With distinct topics, every registered topic reaches its own route. */
  lemma {:induction false} LookupFindsKey(routes: seq<Route>, i: nat)
    requires KeysDistinct(routes) && i < |routes|
    ensures Lookup(routes, routes[i].topic) == Some(routes[i])
  {
    if i > 0 {
      assert routes[0].topic != routes[i].topic;
      assert routes[1..][i - 1] == routes[i];
      LookupFindsKey(routes[1..], i - 1);
    }
  }

  // ---------------------------------------------------------------------------
  // Distinct topics
  // ---------------------------------------------------------------------------

  /** What follows `<base>/ssnc/` in a topic under `ssnc`. */
  function Tail(seg: TopLevelTopic): string {
    if UnderCore(seg) then Core.ToString() + "/" + seg.ToString() else seg.ToString()
  }

  lemma TopicShape(base: string, seg: TopLevelTopic)
    ensures SubscriptionTopic(base, seg) == (SsncPrefix(base) + "/") + Tail(seg)
    ensures RemoteTopic(base) == (SsncPrefix(base) + "/") + Tail(Remote)
  {
  }

  /** Only a tail under `core` has a `/` at index 4. */
  lemma TailSlash(seg: TopLevelTopic)
    ensures UnderCore(seg) <==> |Tail(seg)| > 4 && Tail(seg)[4] == '/'
  {
    assert |Core.ToString()| == 4;
    assert !UnderCore(seg) ==> Tail(seg) == seg.ToString();
  }

  /** A common prefix cancels. */
  lemma PrefixCancel(c: string, x: string, y: string)
    ensures c + x == c + y ==> x == y
  {
    assert x == (c + x)[|c|..];
    assert y == (c + y)[|c|..];
  }

  lemma TailInjective(a: TopLevelTopic, b: TopLevelTopic)
    ensures Tail(a) == Tail(b) ==> a == b
  {
    TailSlash(a);
    TailSlash(b);
    PrefixCancel(Core.ToString() + "/", a.ToString(), b.ToString());
    if Tail(a) == Tail(b) {
      TopLevelTopicTextInjective(a, b);
    }
  }

  /** Two segments give the same subscription topic only if they are the same segment. */
  lemma SubscriptionTopicInjective(base: string, a: TopLevelTopic, b: TopLevelTopic)
    ensures SubscriptionTopic(base, a) == SubscriptionTopic(base, b) ==> a == b
  {
    var p := SsncPrefix(base) + "/";
    TopicShape(base, a);
    TopicShape(base, b);
    assert Tail(a) == (p + Tail(a))[|p|..];
    assert Tail(b) == (p + Tail(b))[|p|..];
    TailInjective(a, b);
  }

  lemma SubscribedDistinct()
    ensures forall i, j :: 0 <= i < j < |Subscribed| ==> Subscribed[i] != Subscribed[j]
  {
  }

  /** The twelve table keys are pairwise distinct, so each topic has exactly one callback. */
  lemma TopicMapKeysDistinct(base: string)
    ensures KeysDistinct(TopicMap(base))
  {
    var m := TopicMap(base);
    SubscribedDistinct();
    forall i, j | 0 <= i < j < |m|
      ensures m[i].topic != m[j].topic
    {
      SubscriptionTopicInjective(base, Subscribed[i], Subscribed[j]);
    }
  }

  /** A message on a subscribed topic reaches the callback the table gives its segment. */
  lemma DispatchTable(base: string, seg: TopLevelTopic)
    requires seg in Subscribed
    ensures Lookup(TopicMap(base), SubscriptionTopic(base, seg)) == Some(RouteFor(base, seg))
  {
    var i :| 0 <= i < |Subscribed| && Subscribed[i] == seg;
    TopicMapKeysDistinct(base);
    LookupFindsKey(TopicMap(base), i);
  }

  /** The entity never subscribes to its own command topic. */
  lemma RemoteNotSubscribed(base: string)
    ensures Lookup(TopicMap(base), RemoteTopic(base)) == None
  {
    var m := TopicMap(base);
    assert RemoteTopic(base) == SubscriptionTopic(base, Remote);
    forall i | 0 <= i < |m|
      ensures m[i].topic != RemoteTopic(base)
    {
      SubscriptionTopicInjective(base, Subscribed[i], Remote);
    }
  }

  /** A route's payload encoding is raw exactly when its callback is the cover-art one. */
  predicate Consistent(r: Route) {
    r.encoding == Raw <==> r.handler == Receiver.OnArt
  }

  lemma TopicMapConsistent(base: string)
    ensures forall i :: 0 <= i < |TopicMap(base)| ==> Consistent(TopicMap(base)[i])
  {
  }
}
