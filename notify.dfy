/**
 * Notification delivery: the webhook payload for each chat provider, the
 * POST with its one retry after a 429, and the on-disk spool of messages that
 * could not be delivered. Three generations of this code are modelled:
 *   Original - `rocket_alert`: Rocket.Chat only, success means status 200,
 *              the spool is a JSON object merged with each payload dict;
 *   Middle   - `send_webhook` with the older Rocket.Chat payload;
 *   Current  - `send_webhook` with the newer Rocket.Chat payload.
 * In Middle and Current success means `response.ok` and the spool is a JSON
 * array the message text is appended to. The webhook endpoint is modelled by
 * `respond`: the status it answers to the n-th POST of the run.
 */
module Notify {
  import opened Common
  import opened Providers

  datatype Provider = RocketChat | Discord | MsTeams | Slack

  /** The `--provider` choice naming this provider. */
  function ProviderName(p: Provider): string {
    match p
    case RocketChat => "rocketchat"
    case Discord => "discord"
    case MsTeams => "msteams"
    case Slack => "slack"
  }

  datatype Version = Original | Middle | Current

  const Chipmunk := ":chipmunk:"
  const Purple := "#764FA5"

  /** The Rocket.Chat payload of `rocket_alert` and of the middle `send_webhook`. */
  function LegacyRocketFields(message: string): map<string, Json> {
    map["username" := JStr("rocket.cat"),
        "icon_emoji" := JStr(Chipmunk),
        "attachments" := JArr([JObj(map["text" := JStr(message), "color" := JStr(Purple)])])]
  }

  /** The JSON body POSTed for `message`. */
  function Payload(v: Version, p: Provider, message: string): Json {
    if v == Original then JObj(LegacyRocketFields(message))
    else
      match p
      case MsTeams => JObj(map["Text" := JStr(message)])
      case Slack => JObj(map["text" := JStr(message)])
      case Discord => JObj(map["content" := JStr(message)])
      case RocketChat =>
        if v == Middle then JObj(LegacyRocketFields(message))
        else JObj(map["emoji" := JStr(Chipmunk),
                      "attachments" := JArr([JObj(map["title" := JStr("ratatoskr notify"),
                                                      "text" := JStr(message),
                                                      "color" := JStr(Purple)])])])
  }

  /** Where each provider reads the notification text from a payload. */
  function TextOf(p: Provider, data: Json): Option<string> {
    var key := match p { case MsTeams => "Text" case Slack => "text" case Discord => "content" case RocketChat => "" };
    if !data.JObj? then None
    else if p != RocketChat then
      (if key in data.fields && data.fields[key].JStr? then Some(data.fields[key].s) else None)
    else if "attachments" in data.fields && data.fields["attachments"].JArr? && data.fields["attachments"].items != []
            && data.fields["attachments"].items[0].JObj? && "text" in data.fields["attachments"].items[0].fields
            && data.fields["attachments"].items[0].fields["text"].JStr?
    then Some(data.fields["attachments"].items[0].fields["text"].s)
    else None
  }

  /** Whether the endpoint's answer counts as delivered. */
  predicate Delivered(v: Version, status: int) {
    if v == Original then status == 200 else ResponseOk(status)
  }

  // ---------------------------------------------------------------------------
  // The spool file

  /** The spool file as `save_messages` finds it. */
  datatype SpoolFile = Missing | Unreadable | Malformed | Stored(doc: Json)

  /**
   * `save_messages` of Middle and Current: a missing or unreadable file counts
   * as `[]`, then the text is appended. Invalid JSON is a ValueError; a
   * document other than an array has no `append`.
   */
  function SpoolAppend(spool: SpoolFile, message: string): (r: PyResult<Json>)
    ensures r.Raised? <==> spool.Malformed? || (spool.Stored? && !spool.doc.JArr?)
    ensures spool.Malformed? ==> r == Raised(ValueError)
    ensures spool.Stored? && !spool.doc.JArr? ==> r == Raised(AttributeError)
    ensures r.Ok? ==> r.value.JArr? && r.value.items == SpooledItems(spool) + [JStr(message)]
  {
    match spool
    case Missing => Ok(JArr([JStr(message)]))
    case Unreadable => Ok(JArr([JStr(message)]))
    case Malformed => Raised(ValueError)
    case Stored(doc) => if doc.JArr? then Ok(JArr(doc.items + [JStr(message)])) else Raised(AttributeError)
  }

  /** The entries `save_messages` starts from: none unless the file holds an array. */
  function SpooledItems(spool: SpoolFile): seq<Json> {
    if spool.Stored? && spool.doc.JArr? then spool.doc.items else []
  }

  /**
   * `save_messages` of Original: a missing or unreadable file counts as `{}`,
   * then `dict.update` with the payload, whose keys replace earlier ones.
   */
  function SpoolMerge(spool: SpoolFile, data: map<string, Json>): (r: PyResult<Json>)
    ensures r.Raised? <==> spool.Malformed? || (spool.Stored? && !spool.doc.JObj?)
    ensures spool.Malformed? ==> r == Raised(ValueError)
    ensures spool.Stored? && !spool.doc.JObj? ==> r == Raised(AttributeError)
    ensures r.Ok? ==> r.value.JObj? && r.value.fields.Keys == data.Keys + SpooledFields(spool).Keys
    ensures r.Ok? ==> forall k :: k in data ==> r.value.fields[k] == data[k]
    ensures r.Ok? ==> forall k :: k in SpooledFields(spool) && k !in data ==> r.value.fields[k] == SpooledFields(spool)[k]
  {
    match spool
    case Missing => Ok(JObj(data))
    case Unreadable => Ok(JObj(data))
    case Malformed => Raised(ValueError)
    case Stored(doc) => if doc.JObj? then Ok(JObj(doc.fields + data)) else Raised(AttributeError)
  }

  function SpooledFields(spool: SpoolFile): map<string, Json> {
    if spool.Stored? && spool.doc.JObj? then spool.doc.fields else map[]
  }

  /** What the version's `save_messages` writes for an undelivered message. */
  function Spooled(v: Version, spool: SpoolFile, message: string): PyResult<Json> {
    if v == Original then SpoolMerge(spool, LegacyRocketFields(message)) else SpoolAppend(spool, message)
  }

  // ---------------------------------------------------------------------------
  // Delivery as a function of the outbox state

  /** The fixed parameters of a run: code version, provider, and the endpoint's answers. */
  datatype Channel = Channel(version: Version, provider: Provider, respond: nat -> int)

  /** Everything delivery changes: the payloads POSTed, the spool file, the sleeps taken. */
  datatype Outbox = Outbox(posts: seq<Json>, spool: SpoolFile, sleeps: seq<int>)

  /** The status the endpoint answers to the next POST from `o`. */
  function NextStatus(c: Channel, o: Outbox): int {
    c.respond(|o.posts|)
  }

  /** One `send_webhook` (or `rocket_alert`): POST, and spool the message when not delivered. */
  function Post(c: Channel, o: Outbox, message: string): (PyResult<bool>, Outbox) {
    var posted := o.(posts := o.posts + [Payload(c.version, c.provider, message)]);
    if Delivered(c.version, NextStatus(c, o)) then (Ok(true), posted)
    else
      match Spooled(c.version, o.spool, message)
      case Raised(e) => (Raised(e), posted)
      case Ok(doc) => (Ok(false), posted.(spool := Stored(doc)))
  }

  /** A notification of the check loop: one POST, and after a 429 a 60-second sleep and one more. */
  function Deliver(c: Channel, o: Outbox, message: string): (PyResult<bool>, Outbox) {
    var (first, o1) := Post(c, o, message);
    if first.Ok? && NextStatus(c, o) == 429 then Post(c, o1.(sleeps := o1.sleeps + [60]), message)
    else (first, o1)
  }

  /** The dispatcher of one run: the state `send_webhook` and `save_messages` act on. */
  class Dispatcher {
    const channel: Channel
    var posts: seq<Json>
    var spool: SpoolFile
    var sleeps: seq<int>

    function State(): Outbox
      reads this
    {
      Outbox(posts, spool, sleeps)
    }

    constructor (channel: Channel, spool: SpoolFile)
      ensures this.channel == channel
      ensures State() == Outbox([], spool, [])
    {
      this.channel := channel;
      posts := [];
      this.spool := spool;
      sleeps := [];
    }

    /** `save_messages`: rewrite the spool file with the message added, or raise. */
    method SaveMessages(message: string) returns (res: PyResult<()>)
      modifies this
      ensures posts == old(posts) && sleeps == old(sleeps)
      ensures match Spooled(channel.version, old(spool), message)
              case Raised(e) => res == Raised(e) && spool == old(spool)
              case Ok(doc) => res == Ok(()) && spool == Stored(doc)
    {
      var written := Spooled(channel.version, spool, message);
      match written
      case Raised(e) =>
        res := Raised(e);
      case Ok(doc) =>
        spool := Stored(doc);
        res := Ok(());
    }

    /** `send_webhook` / `rocket_alert`: the result says whether the POST was delivered. */
    method SendWebhook(message: string) returns (delivered: PyResult<bool>)
      modifies this
      ensures (delivered, State()) == Post(channel, old(State()), message)
    {
      var status := channel.respond(|posts|);
      posts := posts + [Payload(channel.version, channel.provider, message)];
      if Delivered(channel.version, status) {
        return Ok(true);
      }
      var saved := SaveMessages(message);
      if saved.Raised? {
        return Raised(saved.error);
      }
      delivered := Ok(false);
    }

    /** The notification step of the check loop, with its 429 back-off. */
    method Notify(message: string) returns (delivered: PyResult<bool>)
      modifies this
      ensures (delivered, State()) == Deliver(channel, old(State()), message)
    {
      var status := channel.respond(|posts|);
      delivered := SendWebhook(message);
      if delivered.Ok? && status == 429 {
        sleeps := sleeps + [60];
        delivered := SendWebhook(message);
      }
    }
  }

  // ---------------------------------------------------------------------------
  // Properties of delivery

  /** Every payload carries the message where its provider reads it. */
  lemma PayloadCarriesMessage(v: Version, p: Provider, message: string)
    requires v == Original ==> p == RocketChat
    ensures TextOf(p, Payload(v, p, message)) == Some(message)
  {
    var data := Payload(v, p, message);
    if p == RocketChat {
      assert data.fields["attachments"].items[0].fields["text"] == JStr(message);
    } else {
      assert data.fields[match p { case MsTeams => "Text" case Slack => "text" case Discord => "content" case RocketChat => "" }] == JStr(message);
    }
  }

  /** Distinct messages give distinct payloads. */
  lemma PayloadsDistinguishMessages(v: Version, p: Provider, m1: string, m2: string)
    requires v == Original ==> p == RocketChat
    requires Payload(v, p, m1) == Payload(v, p, m2)
    ensures m1 == m2
  {
    PayloadCarriesMessage(v, p, m1);
    PayloadCarriesMessage(v, p, m2);
  }

  /**
   * A notification POSTs its payload once, or twice exactly when the first
   * answer is 429 and spooling it did not raise; the only sleep is the
   * 60-second back-off before the second POST. There is never a third attempt.
   */
  lemma DeliverAttempts(c: Channel, o: Outbox, message: string)
    ensures var (_, o2) := Deliver(c, o, message);
      var retried := NextStatus(c, o) == 429 && Spooled(c.version, o.spool, message).Ok?;
      o2.posts == o.posts + (if retried then [Payload(c.version, c.provider, message), Payload(c.version, c.provider, message)]
                             else [Payload(c.version, c.provider, message)]) &&
      o2.sleeps == o.sleeps + (if retried then [60] else [])
  {
    var data := Payload(c.version, c.provider, message);
    assert o.posts + [data] + [data] == o.posts + [data, data];
  }

  /** The result reports delivery exactly when the last POST was answered with success. */
  lemma DeliverResult(c: Channel, o: Outbox, message: string)
    ensures var (r, o2) := Deliver(c, o, message);
      r == Ok(true) <==> |o2.posts| >= 1 && Delivered(c.version, c.respond(|o2.posts| - 1))
  {
  }

  /**
   * In Middle and Current the spool gains one copy of the message per
   * undelivered attempt: a 429 followed by a success leaves the message both
   * delivered and spooled.
   */
  lemma DeliverSpoolsEachFailure(c: Channel, o: Outbox, message: string)
    requires c.version != Original
    requires Spooled(c.version, o.spool, message).Ok?
    ensures var (r, o2) := Deliver(c, o, message);
      var first := NextStatus(c, o);
      var failures := (if Delivered(c.version, first) then 0 else 1) +
                      (if first == 429 && !Delivered(c.version, c.respond(|o.posts| + 1)) then 1 else 0);
      r.Ok? && (failures > 0 ==> o2.spool.Stored?) &&
      SpooledItems(o2.spool) == SpooledItems(o.spool) + seq(failures, _ => JStr(message))
  {
    var (_, o1) := Post(c, o, message);
    var first := NextStatus(c, o);
    if Delivered(c.version, first) {
      assert o1 == o.(posts := o.posts + [Payload(c.version, c.provider, message)]);
    } else {
      assert o1.spool == Stored(JArr(SpooledItems(o.spool) + [JStr(message)]));
      if first == 429 {
        var second := c.respond(|o.posts| + 1);
        assert |o1.posts| == |o.posts| + 1;
        if !Delivered(c.version, second) {
          assert SpooledItems(o1.spool) == SpooledItems(o.spool) + [JStr(message)];
          assert SpooledItems(o.spool) + [JStr(message)] + [JStr(message)]
              == SpooledItems(o.spool) + seq(2, _ => JStr(message));
        } else {
          assert seq(1, _ => JStr(message)) == [JStr(message)];
        }
      } else {
        assert seq(1, _ => JStr(message)) == [JStr(message)];
      }
    }
  }

  /**
   * In Original every payload has the same three keys, so merging a second
   * undelivered message into the spool overwrites the first one.
   */
  lemma OriginalSpoolKeepsOnlyLast(first: string, second: string)
    ensures SpoolMerge(Stored(JObj(LegacyRocketFields(first))), LegacyRocketFields(second))
         == Ok(JObj(LegacyRocketFields(second)))
  {
    var merged := LegacyRocketFields(first) + LegacyRocketFields(second);
    assert merged.Keys == LegacyRocketFields(second).Keys;
    assert merged == LegacyRocketFields(second);
  }

  /** A spool file `save_messages` of this version can extend without raising. */
  predicate SpoolUsable(v: Version, spool: SpoolFile) {
    spool.Missing? || spool.Unreadable? || (spool.Stored? && (if v == Original then spool.doc.JObj? else spool.doc.JArr?))
  }

  /** With a usable spool file a notification never raises, and the spool stays usable. */
  lemma DeliverOnUsableSpool(c: Channel, o: Outbox, message: string)
    requires SpoolUsable(c.version, o.spool)
    ensures Deliver(c, o, message).0.Ok?
    ensures SpoolUsable(c.version, Deliver(c, o, message).1.spool)
  {
    var (first, o1) := Post(c, o, message);
    assert first.Ok? && SpoolUsable(c.version, o1.spool);
    if NextStatus(c, o) == 429 {
      var o2 := o1.(sleeps := o1.sleeps + [60]);
      assert Post(c, o2, message).0.Ok? && SpoolUsable(c.version, Post(c, o2, message).1.spool);
    }
  }

  /** A spool file that exists but cannot be read is replaced by a fresh one-message array. */
  lemma UnreadableSpoolIsReplaced(v: Version, message: string)
    requires v != Original
    ensures Spooled(v, Unreadable, message) == Ok(JArr([JStr(message)]))
  {
  }
}
