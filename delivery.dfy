/**
 * `TelegramSender.send_messages` and `_send_message_with_images`
 * (telegram_sender.py): each configuration is sent to each of its
 * recipients, a recipient token being tried as `group:topic`, then as a
 * numeric id, then as a name.  The Telegram client is an oracle that answers
 * the n-th call issued; the calls issued are recorded, in order, as a trace.
 * The filesystem is the set of paths that exist.
 */
module Delivery {
  import opened Basics
  import opened Strings
  import opened Scheduler
  import opened SenderConfig
  import Progress

  // ---------------------------------------------------------------------------
  // The client

  /** A resolved chat, channel or user. */
  datatype Entity = Entity(id: int)

  /** What `get_entity` is asked for: a numeric id or a name such as `@channel`. */
  datatype Query = ById(n: int) | ByName(name: string)

  /** A forum topic: its id and its top message (0 when it has none). */
  datatype Topic = Topic(id: int, topMessage: int)

  /** An exception a call raised: whether it is a `ValueError`, and its text. */
  datatype Failure = Failure(valueError: bool, text: string)

  datatype Outcome<T> = Ok(value: T) | Raised(failure: Failure)

  /** The account the client is logged in as. */
  datatype Me = Me(firstName: string, username: string)

  /** A call issued to the client. */
  datatype Call =
    | GetMe
    | GetEntity(query: Query)
    | GetForumTopics(channel: Entity, limit: nat)
    | SendFile(entity: Entity, files: seq<string>, caption: Option<string>, replyTo: Option<int>)
    | SendMessage(to: Entity, text: string, replyTo: Option<int>)

  /** What the client answers; the first argument is the number of calls issued before this one. */
  datatype Client = Client(
    me: nat -> Outcome<Me>,
    entity: (nat, Query) -> Outcome<Entity>,
    topics: (nat, Entity) -> Outcome<seq<Topic>>,
    send: (nat, Call) -> Option<Failure>)

  /** The lines logged and the calls issued so far. */
  datatype Output = Output(log: seq<string>, trace: seq<Call>)

  function Log(o: Output, line: string): Output { o.(log := o.log + [line]) }
  function Issue(o: Output, c: Call): Output { o.(trace := o.trace + [c]) }

  /** `o2` continues `o1`: nothing logged or issued is taken back. */
  predicate Extends(o1: Output, o2: Output)
  {
    o1.log <= o2.log && o1.trace <= o2.trace
  }

  /** The calls issued from `o1` to `o2`. */
  function NewCalls(o1: Output, o2: Output): seq<Call>
    requires Extends(o1, o2)
  {
    o2.trace[|o1.trace|..]
  }

  /** The lines logged from `o1` to `o2`. */
  function NewLines(o1: Output, o2: Output): seq<string>
    requires Extends(o1, o2)
  {
    o2.log[|o1.log|..]
  }

  // ---------------------------------------------------------------------------
  // Attachments

  /** `[img for img in image_paths if os.path.exists(img)]` */
  function Existing(paths: seq<string>, files: set<string>): seq<string>
  {
    if paths == [] then []
    else (if paths[0] in files then [paths[0]] else []) + Existing(paths[1..], files)
  }

  /** The paths that do not exist, in order. */
  function Missing(paths: seq<string>, files: set<string>): seq<string>
  {
    if paths == [] then []
    else (if paths[0] !in files then [paths[0]] else []) + Missing(paths[1..], files)
  }

  function MissingLine(path: string): string { "⚠ Warning: Image file not found: " + path }

  /** One warning per missing path, in order. */
  function MissingLines(missing: seq<string>): (r: seq<string>)
    ensures |r| == |missing| && forall i :: 0 <= i < |r| ==> r[i] == MissingLine(missing[i])
  {
    if missing == [] then [] else [MissingLine(missing[0])] + MissingLines(missing[1..])
  }

  const CaptionFallback: string := "⚠ Failed to send with caption, trying separate: "

  /** The result of a send: the output reached and the exception that escaped, if any. */
  datatype Sent = Sent(out: Output, failure: Option<Failure>)

  /** `_send_message_with_images`. */
  function SendWithImages(c: Client, files: set<string>, o: Output, e: Entity, message: string,
                          paths: seq<string>, replyTo: Option<int>): (r: Sent)
    ensures Extends(o, r.out)
  {
    var valid := Existing(paths, files);
    if valid != [] then
      Album(c, o.(log := o.log + MissingLines(Missing(paths, files))), e, message, valid, replyTo)
    else if message != "" then
      var only := SendMessage(e, message, replyTo);
      Sent(Issue(o, only), c.send(|o.trace|, only))
    else Sent(o, None)
  }

  /** The album of the existing images, captioned with the text unless it is empty. */
  function Album(c: Client, o: Output, e: Entity, message: string, valid: seq<string>, replyTo: Option<int>): (r: Sent)
    ensures Extends(o, r.out)
  {
    var first := SendFile(e, valid, if message != "" then Some(message) else None, replyTo);
    var f1 := c.send(|o.trace|, first);
    if f1.None? then Sent(Issue(o, first), None)
    else AlbumRetry(c, Log(Issue(o, first), CaptionFallback + f1.value.text), e, message, valid, replyTo)
  }

  /** After a failed captioned album: the album without caption, then the text on its own. */
  function AlbumRetry(c: Client, o: Output, e: Entity, message: string, valid: seq<string>, replyTo: Option<int>): (r: Sent)
    ensures Extends(o, r.out)
  {
    var second := SendFile(e, valid, None, replyTo);
    var f2 := c.send(|o.trace|, second);
    var o2 := Issue(o, second);
    if f2.Some? || message == "" then Sent(o2, f2)
    else
      var third := SendMessage(e, message, None);
      Sent(Issue(o2, third), c.send(|o2.trace|, third))
  }

  // ---------------------------------------------------------------------------
  // One recipient

  /** The outcome of the `group:topic` attempt. */
  datatype TopicResult =
    | TopicSent(out: Output)
    | FallThrough(out: Output)                   // a ValueError: go on with ordinary resolution
    | TopicFailed(out: Output, failure: Failure) // any other exception: the recipient failed

  /** `except ValueError: pass` around the topic attempt. */
  function Caught(o: Output, f: Failure): (t: TopicResult)
    ensures t.out == o && !t.TopicSent? && (t.FallThrough? <==> f.valueError)
  {
    if f.valueError then FallThrough(o) else TopicFailed(o, f)
  }

  /** The first topic with the given id. */
  function FindTopic(ts: seq<Topic>, id: int): (r: Option<Topic>)
    ensures r.Some? ==> r.value in ts && r.value.id == id
    ensures r.None? <==> forall k :: 0 <= k < |ts| ==> ts[k].id != id
  {
    if ts == [] then None else if ts[0].id == id then Some(ts[0]) else FindTopic(ts[1..], id)
  }

  const TopicLimit: nat := 100

  function TopicSentLine(topicId: int, group: string): string
  {
    "✓ Message sent to topic " + IntToString(topicId) + " in group " + group
  }

  /** The topic attempt for a token `group:topic`, split at its first colon. */
  function ViaTopic(c: Client, files: set<string>, o: Output, r: string, message: string, paths: seq<string>): (t: TopicResult)
    requires ':' in r
    ensures Extends(o, t.out)
  {
    var parts := SplitOnce(r, ':');
    var gid := PyInt(parts.0);
    if gid.None? then FallThrough(o)
    else
      var ge := c.entity(|o.trace|, ById(gid.value));
      var o1 := Issue(o, GetEntity(ById(gid.value)));
      if ge.Raised? then Caught(o1, ge.failure)
      else InGroup(c, files, o1, ge.value, parts.0, parts.1, message, paths)
  }

  /** The group is resolved: parse the topic id and fetch the group's topics. */
  function InGroup(c: Client, files: set<string>, o: Output, group: Entity, g: string, tp: string,
                   message: string, paths: seq<string>): (t: TopicResult)
    ensures Extends(o, t.out)
  {
    var tid := PyInt(tp);
    if tid.None? then FallThrough(o)
    else
      var ts := c.topics(|o.trace|, group);
      var o1 := Issue(o, GetForumTopics(group, TopicLimit));
      if ts.Raised? then Caught(o1, ts.failure)
      else InTopic(c, files, o1, group, g, FindTopic(ts.value, tid.value), tid.value, message, paths)
  }

  /** The topics are fetched: send as a reply to the topic's top message, if there is one. */
  function InTopic(c: Client, files: set<string>, o: Output, group: Entity, g: string, topic: Option<Topic>, tid: int,
                   message: string, paths: seq<string>): (t: TopicResult)
    ensures Extends(o, t.out)
  {
    if topic.None? || topic.value.topMessage == 0 then FallThrough(o)
    else
      var s := SendWithImages(c, files, o, group, message, paths, Some(topic.value.topMessage));
      if s.failure.Some? then Caught(s.out, s.failure.value)
      else TopicSent(Log(s.out, TopicSentLine(tid, g)))
  }

  /** The result of resolving a token: the output reached and the entity or the exception. */
  datatype Resolved = Resolved(out: Output, entity: Outcome<Entity>)

  /** `get_entity(int(r))`, and on a `ValueError` (from `int` or from the call) `get_entity(r)`. */
  function Resolve(c: Client, o: Output, r: string): (res: Resolved)
    ensures Extends(o, res.out)
  {
    ResolveAs(c, o, r, PyInt(r))
  }

  /** `Resolve` once `int(r)` is known: `n` is its value, or None for a `ValueError`. */
  function ResolveAs(c: Client, o: Output, r: string, n: Option<int>): (res: Resolved)
    ensures Extends(o, res.out)
  {
    if n.Some? then
      var first := c.entity(|o.trace|, ById(n.value));
      var o1 := Issue(o, GetEntity(ById(n.value)));
      if first.Raised? && first.failure.valueError then
        Resolved(Issue(o1, GetEntity(ByName(r))), c.entity(|o1.trace|, ByName(r)))
      else Resolved(o1, first)
    else Resolved(Issue(o, GetEntity(ByName(r))), c.entity(|o.trace|, ByName(r)))
  }

  function SentLine(r: string): string { "✓ Message sent to " + r }

  function FailedLine(r: string, f: Failure): string { "✗ Failed to send message to " + r + ": " + f.text }

  /** The ordinary path: resolve, send, log success. */
  function ViaEntity(c: Client, files: set<string>, o: Output, r: string, message: string, paths: seq<string>): (s: Sent)
    ensures Extends(o, s.out)
  {
    var res := Resolve(c, o, r);
    if res.entity.Raised? then Sent(res.out, Some(res.entity.failure))
    else
      var s := SendWithImages(c, files, res.out, res.entity.value, message, paths, None);
      if s.failure.Some? then s else Sent(Log(s.out, SentLine(r)), None)
  }

  /** The result for one recipient: the output reached and whether it counts as sent. */
  datatype Delivered = Delivered(out: Output, ok: bool)

  /** The ordinary path inside the `try`: any exception is logged and counts as a failure. */
  function Regular(c: Client, files: set<string>, o: Output, r: string, message: string, paths: seq<string>): (d: Delivered)
    ensures Extends(o, d.out)
  {
    var s := ViaEntity(c, files, o, r, message, paths);
    if s.failure.Some? then Delivered(Log(s.out, FailedLine(r, s.failure.value)), false)
    else Delivered(s.out, true)
  }

  /** A token is tried as `group:topic` when it has a colon and does not start with `@`. */
  predicate IsTopicToken(r: string)
  {
    ':' in r && !StartsWith(r, "@")
  }

  /** One stripped, non-blank recipient token. */
  function DeliverTo(c: Client, files: set<string>, o: Output, r: string, message: string, paths: seq<string>): (d: Delivered)
    ensures Extends(o, d.out)
  {
    if IsTopicToken(r) then
      match ViaTopic(c, files, o, r, message, paths)
      case TopicSent(o1) => Delivered(o1, true)
      case TopicFailed(o1, f) => Delivered(Log(o1, FailedLine(r, f)), false)
      case FallThrough(o1) => Regular(c, files, o1, r, message, paths)
    else Regular(c, files, o, r, message, paths)
  }

  // ---------------------------------------------------------------------------
  // One configuration, all configurations

  /** The output reached and the counts of recipients sent to and failed. */
  datatype Tally = Tally(out: Output, sent: nat, failed: nat)

  /** `for recipient in recipients:` with blank tokens skipped. */
  function SendToAll(c: Client, files: set<string>, o: Output, rs: seq<string>, message: string, paths: seq<string>): (t: Tally)
    ensures Extends(o, t.out)
    decreases |rs|
  {
    if rs == [] then Tally(o, 0, 0)
    else
      var r := Strip(rs[0]);
      if r == "" then SendToAll(c, files, o, rs[1..], message, paths)
      else
        var d := DeliverTo(c, files, o, r, message, paths);
        var rest := SendToAll(c, files, d.out, rs[1..], message, paths);
        Tally(rest.out, rest.sent + (if d.ok then 1 else 0), rest.failed + (if d.ok then 0 else 1))
  }

  function SkipLine(idx: nat): string { "⚠ Message " + NatToString(idx) + ": No recipients configured, skipping" }

  function HeaderLine(idx: nat, n: nat): string
  {
    "📨 Message " + NatToString(idx) + ": Sending to " + NatToString(n) + " recipient(s)..."
  }

  function ImagesLine(n: nat): string { "   Images: " + NatToString(n) + " file(s)" }

  function SummaryLine(sent: nat, failed: nat): string
  {
    "   Summary: " + NatToString(sent) + " sent, " + NatToString(failed) + " failed\n"
  }

  /** One configuration, numbered `idx` from 1. */
  function SendConfig(c: Client, files: set<string>, o: Output, idx: nat, cfg: MessageConfig): (t: Tally)
    ensures Extends(o, t.out)
  {
    if cfg.recipients == [] then Tally(Log(o, SkipLine(idx)), 0, 0)
    else
      var o1 := Log(o, HeaderLine(idx, |cfg.recipients|));
      var o2 := if cfg.imagePaths != [] then Log(o1, ImagesLine(|cfg.imagePaths|)) else o1;
      var t := SendToAll(c, files, o2, cfg.recipients, cfg.message, cfg.imagePaths);
      Tally(Log(t.out, SummaryLine(t.sent, t.failed)), t.sent, t.failed)
  }

  /** `for config_idx, config in enumerate(configs_to_send, 1):` from index `idx` on. */
  function SendConfigs(c: Client, files: set<string>, o: Output, idx: nat, cfgs: seq<MessageConfig>): (t: Tally)
    ensures Extends(o, t.out)
    decreases |cfgs|
  {
    if cfgs == [] then Tally(o, 0, 0)
    else
      var first := SendConfig(c, files, o, idx, cfgs[0]);
      var rest := SendConfigs(c, files, first.out, idx + 1, cfgs[1..]);
      Tally(rest.out, first.sent + rest.sent, first.failed + rest.failed)
  }

  function MeLine(me: Outcome<Me>): string
  {
    match me
    case Ok(m) => "👤 Sending as: " + m.firstName + " (@" + m.username + ")"
    case Raised(f) => "⚠ Could not get sender info: " + f.text
  }

  const NothingToSend: string := "No messages to send."

  function FoundLine(n: nat): string { "Found " + NatToString(n) + " message configuration(s)\n" }

  function RuleLine(): string { Repeat('=', 60) }

  function TotalLine(sent: nat, failed: nat): string
  {
    "Total: " + NatToString(sent) + " sent, " + NatToString(failed) + " failed"
  }

  /** The configurations a call sends: the given one, or all loaded ones. */
  function Selection(loaded: seq<MessageConfig>, specific: Option<MessageConfig>): seq<MessageConfig>
  {
    if specific.Some? then [specific.value] else loaded
  }

  /** `send_messages(specific_config)`. */
  function SendMessages(c: Client, files: set<string>, o: Output, loaded: seq<MessageConfig>,
                        specific: Option<MessageConfig>): (r: Output)
    ensures Extends(o, r)
  {
    var o1 := Log(Issue(o, GetMe), MeLine(c.me(|o.trace|)));
    var cfgs := Selection(loaded, specific);
    if cfgs == [] then Log(o1, NothingToSend)
    else
      var o2 := if specific.None? then Log(o1, FoundLine(|loaded|)) else o1;
      var t := SendConfigs(c, files, o2, 1, cfgs);
      Log(Log(t.out, RuleLine()), TotalLine(t.sent, t.failed))
  }

  // ---------------------------------------------------------------------------
  // Attachments: the filter and the send shape

  /**
   * The attachments are the existing paths and the warnings name the missing
   * ones, both in the order given: together they are all the paths.
   */
  lemma {:induction false} AttachmentFilter(paths: seq<string>, files: set<string>)
    ensures forall x :: x in Existing(paths, files) <==> x in paths && x in files
    ensures forall x :: x in Missing(paths, files) <==> x in paths && x !in files
    ensures |Existing(paths, files)| + |Missing(paths, files)| == |paths|
    ensures IsSubsequence(Existing(paths, files), paths) && IsSubsequence(Missing(paths, files), paths)
  {
    if paths != [] {
      AttachmentFilter(paths[1..], files);
      var e, m := Existing(paths[1..], files), Missing(paths[1..], files);
      assert forall x :: x in paths <==> x == paths[0] || x in paths[1..];
      if paths[0] in files {
        assert ([paths[0]] + e)[1..] == e;
        assert [] + m == m;
        SubsequenceSkip(m, paths);
      } else {
        assert ([paths[0]] + m)[1..] == m;
        assert [] + e == e;
        SubsequenceSkip(e, paths);
      }
    }
  }

  /** Extending the paths by one extends the missing ones, and their warnings, by it when it does not exist. */
  lemma {:induction false} MissingSnoc(xs: seq<string>, x: string, files: set<string>)
    ensures Missing(xs + [x], files) == Missing(xs, files) + (if x !in files then [x] else [])
    ensures MissingLines(Missing(xs + [x], files)) ==
            MissingLines(Missing(xs, files)) + (if x !in files then [MissingLine(x)] else [])
  {
    if xs != [] {
      assert (xs + [x])[1..] == xs[1..] + [x];
      MissingSnoc(xs[1..], x, files);
    } else {
      assert [] + [x] == [x];
    }
    MissingLinesAppend(Missing(xs, files), if x !in files then [x] else []);
  }

  lemma {:induction false} MissingLinesAppend(a: seq<string>, b: seq<string>)
    ensures MissingLines(a + b) == MissingLines(a) + MissingLines(b)
  {
    if a != [] {
      assert (a + b)[1..] == a[1..] + b;
      MissingLinesAppend(a[1..], b);
    } else {
      assert a + b == b;
    }
  }

  /** A path is attached exactly when it is given and exists. */
  lemma {:induction false} ExistingMember(paths: seq<string>, files: set<string>, x: string)
    ensures x in Existing(paths, files) <==> x in paths && x in files
  {
    if paths != [] {
      ExistingMember(paths[1..], files, x);
      assert x in paths <==> x == paths[0] || x in paths[1..];
    }
  }

  /**
   * `_send_message_with_images` with no existing image: one text message,
   * with the given `reply_to`, when the text is non-empty, and no call at all
   * otherwise; nothing is logged.
   */
  lemma SendTextOnly(c: Client, files: set<string>, o: Output, e: Entity, message: string,
                     paths: seq<string>, replyTo: Option<int>)
    requires Existing(paths, files) == []
    ensures var r := SendWithImages(c, files, o, e, message, paths, replyTo);
            && r.out.log == o.log
            && (message != "" ==> r == Sent(Issue(o, SendMessage(e, message, replyTo)), c.send(|o.trace|, SendMessage(e, message, replyTo))))
            && (message == "" ==> r == Sent(o, None))
  {
  }

  /**
   * `_send_message_with_images` with existing images: the missing paths are
   * warned about, then one album of exactly the existing images goes out,
   * captioned with the text unless it is empty.  Only if that fails is the
   * failure logged and an uncaptioned album sent, followed, when that
   * succeeds and the text is non-empty, by the text on its own without
   * `reply_to`.
   */
  lemma SendAlbum(c: Client, files: set<string>, o: Output, e: Entity, message: string,
                  paths: seq<string>, replyTo: Option<int>)
    requires Existing(paths, files) != []
    ensures var r := SendWithImages(c, files, o, e, message, paths, replyTo);
            var valid := Existing(paths, files);
            var first := SendFile(e, valid, if message != "" then Some(message) else None, replyTo);
            var second := SendFile(e, valid, None, replyTo);
            var text := SendMessage(e, message, None);
            var warned := o.log + MissingLines(Missing(paths, files));
            var f1 := c.send(|o.trace|, first);
            var f2 := c.send(|o.trace| + 1, second);
            && (f1.None? ==> r == Sent(Output(warned, o.trace + [first]), None))
            && (f1.Some? ==> r.out.log == warned + [CaptionFallback + f1.value.text])
            && (f1.Some? && (f2.Some? || message == "") ==> r.out.trace == o.trace + [first, second] && r.failure == f2)
            && (f1.Some? && f2.None? && message != "" ==>
                  r.out.trace == o.trace + [first, second, text] && r.failure == c.send(|o.trace| + 2, text))
  {
    var o1 := o.(log := o.log + MissingLines(Missing(paths, files)));
    assert SendWithImages(c, files, o, e, message, paths, replyTo) == Album(c, o1, e, message, Existing(paths, files), replyTo);
    AlbumShape(c, o1, e, message, Existing(paths, files), replyTo);
  }

  /** The calls of an album and of its retry, and the line logged between them. */
  lemma AlbumShape(c: Client, o: Output, e: Entity, message: string, valid: seq<string>, replyTo: Option<int>)
    ensures var r := Album(c, o, e, message, valid, replyTo);
            var first := SendFile(e, valid, if message != "" then Some(message) else None, replyTo);
            var second := SendFile(e, valid, None, replyTo);
            var text := SendMessage(e, message, None);
            var f1 := c.send(|o.trace|, first);
            var f2 := c.send(|o.trace| + 1, second);
            && (f1.None? ==> r == Sent(Issue(o, first), None))
            && (f1.Some? ==> r.out.log == o.log + [CaptionFallback + f1.value.text])
            && (f1.Some? && (f2.Some? || message == "") ==> r.out.trace == o.trace + [first, second] && r.failure == f2)
            && (f1.Some? && f2.None? && message != "" ==>
                  r.out.trace == o.trace + [first, second, text] && r.failure == c.send(|o.trace| + 2, text))
  {
    var first := SendFile(e, valid, if message != "" then Some(message) else None, replyTo);
    var second := SendFile(e, valid, None, replyTo);
    var text := SendMessage(e, message, None);
    assert o.trace + [first] + [second] == o.trace + [first, second];
    assert o.trace + [first] + [second] + [text] == o.trace + [first, second, text];
  }

  /** Every call issued from `o1` to `o2` is a send to `e`, none fetches topics. */
  predicate OnlySendsTo(o1: Output, o2: Output, e: Entity)
    requires Extends(o1, o2)
  {
    forall k :: |o1.trace| <= k < |o2.trace| ==>
      (o2.trace[k].SendFile? && o2.trace[k].entity == e) || (o2.trace[k].SendMessage? && o2.trace[k].to == e)
  }

  /** Calls appended that all send to `e`. */
  lemma IssuedOnlySends(o1: Output, o2: Output, e: Entity, calls: seq<Call>)
    requires Extends(o1, o2) && o2.trace == o1.trace + calls
    requires forall k :: 0 <= k < |calls| ==>
               (calls[k].SendFile? && calls[k].entity == e) || (calls[k].SendMessage? && calls[k].to == e)
    ensures OnlySendsTo(o1, o2, e)
  {
    forall k | |o1.trace| <= k < |o2.trace|
      ensures (o2.trace[k].SendFile? && o2.trace[k].entity == e) || (o2.trace[k].SendMessage? && o2.trace[k].to == e)
    {
      assert o2.trace[k] == calls[k - |o1.trace|];
    }
  }

  /** `_send_message_with_images` only ever sends, and only to the entity it is given. */
  lemma SendsOnlyTo(c: Client, files: set<string>, o: Output, e: Entity, message: string,
                    paths: seq<string>, replyTo: Option<int>)
    ensures OnlySendsTo(o, SendWithImages(c, files, o, e, message, paths, replyTo).out, e)
  {
    if Existing(paths, files) == [] {
      TextOnlySendsTo(c, files, o, e, message, paths, replyTo);
    } else {
      AlbumSendsOnlyTo(c, files, o, e, message, paths, replyTo);
    }
  }

  lemma TextOnlySendsTo(c: Client, files: set<string>, o: Output, e: Entity, message: string,
                        paths: seq<string>, replyTo: Option<int>)
    requires Existing(paths, files) == []
    ensures OnlySendsTo(o, SendWithImages(c, files, o, e, message, paths, replyTo).out, e)
  {
    var r := SendWithImages(c, files, o, e, message, paths, replyTo);
    SendTextOnly(c, files, o, e, message, paths, replyTo);
    if message != "" {
      IssuedOnlySends(o, r.out, e, [SendMessage(e, message, replyTo)]);
    } else {
      assert o.trace + [] == o.trace;
      IssuedOnlySends(o, r.out, e, []);
    }
  }

  lemma AlbumSendsOnlyTo(c: Client, files: set<string>, o: Output, e: Entity, message: string,
                         paths: seq<string>, replyTo: Option<int>)
    requires Existing(paths, files) != []
    ensures OnlySendsTo(o, SendWithImages(c, files, o, e, message, paths, replyTo).out, e)
  {
    var r := SendWithImages(c, files, o, e, message, paths, replyTo);
    var valid := Existing(paths, files);
    SendAlbum(c, files, o, e, message, paths, replyTo);
    var first := SendFile(e, valid, if message != "" then Some(message) else None, replyTo);
    var second := SendFile(e, valid, None, replyTo);
    var f1 := c.send(|o.trace|, first);
    var f2 := c.send(|o.trace| + 1, second);
    if f1.None? {
      IssuedOnlySends(o, r.out, e, [first]);
    } else if f2.Some? || message == "" {
      IssuedOnlySends(o, r.out, e, [first, second]);
    } else {
      IssuedOnlySends(o, r.out, e, [first, second, SendMessage(e, message, None)]);
    }
  }

  // ---------------------------------------------------------------------------
  // Recipient classification

  /** No call issued from `o1` to `o2` fetches forum topics. */
  predicate NoTopicFetch(o1: Output, o2: Output)
    requires Extends(o1, o2)
  {
    forall k :: |o1.trace| <= k < |o2.trace| ==> !o2.trace[k].GetForumTopics?
  }

  lemma NoTopicFetchChain(o1: Output, o2: Output, o3: Output)
    requires Extends(o1, o2) && Extends(o2, o3) && NoTopicFetch(o1, o2) && NoTopicFetch(o2, o3)
    ensures Extends(o1, o3) && NoTopicFetch(o1, o3)
  {
    forall k | |o1.trace| <= k < |o2.trace|
      ensures o3.trace[k] == o2.trace[k]
    {
    }
  }

  /** Calls appended none of which fetches topics. */
  lemma IssuedNoFetch(o1: Output, o2: Output, calls: seq<Call>)
    requires Extends(o1, o2) && o2.trace == o1.trace + calls
    requires forall k :: 0 <= k < |calls| ==> !calls[k].GetForumTopics?
    ensures NoTopicFetch(o1, o2)
  {
    forall k | |o1.trace| <= k < |o2.trace|
      ensures !o2.trace[k].GetForumTopics?
    {
      assert o2.trace[k] == calls[k - |o1.trace|];
    }
  }

  lemma ResolveFetchesNoTopics(c: Client, o: Output, r: string)
    ensures NoTopicFetch(o, Resolve(c, o, r).out)
  {
    ResolveAsFetchesNoTopics(c, o, r, PyInt(r));
  }

  lemma ResolveAsFetchesNoTopics(c: Client, o: Output, r: string, n: Option<int>)
    ensures NoTopicFetch(o, ResolveAs(c, o, r, n).out)
  {
    var res := ResolveAs(c, o, r, n);
    if n.Some? {
      var first := c.entity(|o.trace|, ById(n.value));
      if first.Raised? && first.failure.valueError {
        var calls := [GetEntity(ById(n.value)), GetEntity(ByName(r))];
        assert o.trace + [calls[0]] + [calls[1]] == o.trace + calls;
        IssuedNoFetch(o, res.out, calls);
      } else {
        IssuedNoFetch(o, res.out, [GetEntity(ById(n.value))]);
      }
    } else {
      IssuedNoFetch(o, res.out, [GetEntity(ByName(r))]);
    }
  }

  lemma ViaEntityFetchesNoTopics(c: Client, files: set<string>, o: Output, r: string, message: string, paths: seq<string>)
    ensures NoTopicFetch(o, ViaEntity(c, files, o, r, message, paths).out)
  {
    var res := Resolve(c, o, r);
    ResolveFetchesNoTopics(c, o, r);
    if res.entity.Ok? {
      var s := SendWithImages(c, files, res.out, res.entity.value, message, paths, None);
      SendsOnlyTo(c, files, res.out, res.entity.value, message, paths, None);
      NoTopicFetchChain(o, res.out, s.out);
      if s.failure.None? {
        NoTopicFetchChain(o, s.out, Log(s.out, SentLine(r)));
      }
    }
  }

  /**
   * A token without a colon, or starting with `@`, never reaches the topic
   * path: it is resolved and sent to as an ordinary token, and no forum
   * topics are fetched.
   */
  lemma PlainTokenFetchesNoTopics(c: Client, files: set<string>, o: Output, r: string, message: string, paths: seq<string>)
    requires !IsTopicToken(r)
    ensures DeliverTo(c, files, o, r, message, paths) == Regular(c, files, o, r, message, paths)
    ensures NoTopicFetch(o, DeliverTo(c, files, o, r, message, paths).out)
  {
    var s := ViaEntity(c, files, o, r, message, paths);
    ViaEntityFetchesNoTopics(c, files, o, r, message, paths);
    if s.failure.Some? {
      NoTopicFetchChain(o, s.out, Log(s.out, FailedLine(r, s.failure.value)));
    }
  }

  /** A `group:topic` token whose group part is not an integer is sent exactly as an ordinary token would be. */
  lemma GroupNotIntegerFallsThrough(c: Client, files: set<string>, o: Output, r: string, message: string, paths: seq<string>)
    requires IsTopicToken(r) && PyInt(SplitOnce(r, ':').0).None?
    ensures DeliverTo(c, files, o, r, message, paths) == Regular(c, files, o, r, message, paths)
  {
  }

  /**
   * The group and the topic id parse and the topics are fetched, but none of
   * them has that id, or it has no top message: no error is reported, and the
   * token goes on to ordinary resolution after the two calls already made.
   */
  lemma TopicNotFoundFallsThrough(c: Client, files: set<string>, o: Output, r: string, message: string, paths: seq<string>,
                                  gid: int, group: Entity, tid: int, ts: seq<Topic>)
    requires IsTopicToken(r)
    requires PyInt(SplitOnce(r, ':').0) == Some(gid) && PyInt(SplitOnce(r, ':').1) == Some(tid)
    requires c.entity(|o.trace|, ById(gid)) == Ok(group)
    requires c.topics(|o.trace| + 1, group) == Ok(ts)
    requires forall k :: 0 <= k < |ts| ==> ts[k].id != tid || ts[k].topMessage == 0
    ensures DeliverTo(c, files, o, r, message, paths) ==
            Regular(c, files, Issue(Issue(o, GetEntity(ById(gid))), GetForumTopics(group, TopicLimit)), r, message, paths)
  {
    var g := SplitOnce(r, ':').0;
    var o1 := Issue(o, GetEntity(ById(gid)));
    var o2 := Issue(o1, GetForumTopics(group, TopicLimit));
    var topic := FindTopic(ts, tid);
    assert topic.None? || topic.value.topMessage == 0 by {
      FindTopicFirst(ts, tid);
    }
    assert InTopic(c, files, o2, group, g, topic, tid, message, paths) == FallThrough(o2);
    assert InGroup(c, files, o1, group, g, SplitOnce(r, ':').1, message, paths) == FallThrough(o2);
    assert ViaTopic(c, files, o, r, message, paths) == FallThrough(o2);
    FallThroughIsRegular(c, files, o, r, message, paths);
  }

  /** A topic attempt that falls through leaves the token to ordinary resolution from where it stopped. */
  lemma FallThroughIsRegular(c: Client, files: set<string>, o: Output, r: string, message: string, paths: seq<string>)
    requires IsTopicToken(r) && ViaTopic(c, files, o, r, message, paths).FallThrough?
    ensures DeliverTo(c, files, o, r, message, paths) == Regular(c, files, ViaTopic(c, files, o, r, message, paths).out, r, message, paths)
  {
  }

  /** The topic found is the first fetched topic with the id: the loop's `break`. */
  lemma {:induction false} FindTopicFirst(ts: seq<Topic>, id: int)
    ensures FindTopic(ts, id).Some? ==>
              exists k :: 0 <= k < |ts| && ts[k] == FindTopic(ts, id).value &&
                          forall j :: 0 <= j < k ==> ts[j].id != id
  {
    if ts != [] && ts[0].id != id {
      FindTopicFirst(ts[1..], id);
      if FindTopic(ts, id).Some? {
        var k :| 0 <= k < |ts[1..]| && ts[1..][k] == FindTopic(ts, id).value &&
                 forall j :: 0 <= j < k ==> ts[1..][j].id != id;
        assert ts[k + 1] == FindTopic(ts, id).value;
        forall j | 0 <= j < k + 1
          ensures ts[j].id != id
        {
          if j > 0 {
            assert ts[j] == ts[1..][j - 1];
          }
        }
      }
    } else if ts != [] {
      assert ts[0] == FindTopic(ts, id).value;
    }
  }

  /**
   * A topic with that id and a top message is found: every send goes to the
   * group, as a reply to the top message (but for a text sent after a failed
   * caption, which has no `reply_to`), and on success the recipient counts as sent.
   */
  lemma TopicFoundReplies(c: Client, files: set<string>, o: Output, r: string, message: string, paths: seq<string>,
                          gid: int, group: Entity, tid: int, ts: seq<Topic>)
    requires IsTopicToken(r)
    requires PyInt(SplitOnce(r, ':').0) == Some(gid) && PyInt(SplitOnce(r, ':').1) == Some(tid)
    requires c.entity(|o.trace|, ById(gid)) == Ok(group)
    requires c.topics(|o.trace| + 1, group) == Ok(ts)
    requires FindTopic(ts, tid).Some? && FindTopic(ts, tid).value.topMessage != 0
    ensures var o2 := Issue(Issue(o, GetEntity(ById(gid))), GetForumTopics(group, TopicLimit));
            var s := SendWithImages(c, files, o2, group, message, paths, Some(FindTopic(ts, tid).value.topMessage));
            && (s.failure.None? ==>
                  DeliverTo(c, files, o, r, message, paths) == Delivered(Log(s.out, TopicSentLine(tid, SplitOnce(r, ':').0)), true))
            && (s.failure.Some? && !s.failure.value.valueError ==>
                  DeliverTo(c, files, o, r, message, paths) == Delivered(Log(s.out, FailedLine(r, s.failure.value)), false))
            && (s.failure.Some? && s.failure.value.valueError ==>
                  DeliverTo(c, files, o, r, message, paths) == Regular(c, files, s.out, r, message, paths))
  {
  }

  /**
   * With an empty text and no existing image nothing is sent, yet an ordinary
   * token counts as sent exactly when it resolves.
   */
  lemma EmptyTextCountsAsSent(c: Client, files: set<string>, o: Output, r: string, paths: seq<string>)
    requires !IsTopicToken(r) && Existing(paths, files) == []
    ensures var d := DeliverTo(c, files, o, r, "", paths);
            && (d.ok <==> Resolve(c, o, r).entity.Ok?)
            && (d.ok ==> d.out.trace == Resolve(c, o, r).out.trace)
  {
  }

  // ---------------------------------------------------------------------------
  // Counting

  /** The number of tokens that are not blank once stripped. */
  function NonBlank(rs: seq<string>): nat
  {
    if rs == [] then 0 else (if Strip(rs[0]) == "" then 0 else 1) + NonBlank(rs[1..])
  }

  /** Blank tokens are skipped; every other token adds exactly one to the sent or to the failed count. */
  lemma {:induction false} EveryTokenCounted(c: Client, files: set<string>, o: Output, rs: seq<string>, message: string, paths: seq<string>)
    ensures var t := SendToAll(c, files, o, rs, message, paths);
            t.sent + t.failed == NonBlank(rs)
    ensures NonBlank(rs) == 0 ==> SendToAll(c, files, o, rs, message, paths).out == o
    decreases |rs|
  {
    if rs != [] {
      if Strip(rs[0]) == "" {
        EveryTokenCounted(c, files, o, rs[1..], message, paths);
      } else {
        var d := DeliverTo(c, files, o, Strip(rs[0]), message, paths);
        EveryTokenCounted(c, files, d.out, rs[1..], message, paths);
      }
    }
  }

  /**
   * A configuration without recipients logs one line and issues no call; any
   * other logs its header first and its summary last, and its counts cover
   * its non-blank tokens.
   */
  lemma ConfigShape(c: Client, files: set<string>, o: Output, idx: nat, cfg: MessageConfig)
    ensures var t := SendConfig(c, files, o, idx, cfg);
            && t.sent + t.failed == NonBlank(cfg.recipients)
            && (cfg.recipients == [] ==> t == Tally(Log(o, SkipLine(idx)), 0, 0))
            && (cfg.recipients != [] ==>
                  && |NewLines(o, t.out)| >= 2
                  && NewLines(o, t.out)[0] == HeaderLine(idx, |cfg.recipients|)
                  && NewLines(o, t.out)[|NewLines(o, t.out)| - 1] == SummaryLine(t.sent, t.failed))
  {
    if cfg.recipients != [] {
      var o1 := Log(o, HeaderLine(idx, |cfg.recipients|));
      var o2 := if cfg.imagePaths != [] then Log(o1, ImagesLine(|cfg.imagePaths|)) else o1;
      EveryTokenCounted(c, files, o2, cfg.recipients, cfg.message, cfg.imagePaths);
      var t := SendToAll(c, files, o2, cfg.recipients, cfg.message, cfg.imagePaths);
      assert t.out.log[|o.log|] == o1.log[|o.log|];
    }
  }

  /** The number of non-blank tokens over a list of configurations. */
  function TokensOf(cfgs: seq<MessageConfig>): nat
  {
    if cfgs == [] then 0 else NonBlank(cfgs[0].recipients) + TokensOf(cfgs[1..])
  }

  /** The totals are sums over the configurations: together they count every non-blank token once. */
  lemma {:induction false} TotalsCoverTokens(c: Client, files: set<string>, o: Output, idx: nat, cfgs: seq<MessageConfig>)
    ensures var t := SendConfigs(c, files, o, idx, cfgs);
            t.sent + t.failed == TokensOf(cfgs)
    decreases |cfgs|
  {
    if cfgs != [] {
      ConfigShape(c, files, o, idx, cfgs[0]);
      TotalsCoverTokens(c, files, SendConfig(c, files, o, idx, cfgs[0]).out, idx + 1, cfgs[1..]);
    }
  }

  // ---------------------------------------------------------------------------
  // The whole run

  /** The rule line and the totals line both refresh the live progress message, wherever they fall. */
  lemma ClosingLinesRefreshProgress(count: nat, sent: nat, failed: nat)
    ensures Progress.Refreshes(count, RuleLine()) && Progress.Refreshes(count, TotalLine(sent, failed))
  {
    var rest := NatToString(sent) + " sent, " + NatToString(failed) + " failed";
    assert TotalLine(sent, failed) == "Total: " + rest;
    Progress.ClosingLinesRefresh(count, rest);
  }

  /** `send_messages` always asks who it is first and logs the answer first. */
  lemma RunStartsWithMe(c: Client, files: set<string>, o: Output, loaded: seq<MessageConfig>, specific: Option<MessageConfig>)
    ensures var r := SendMessages(c, files, o, loaded, specific);
            && |r.trace| > |o.trace| && r.trace[|o.trace|] == GetMe
            && |r.log| > |o.log| && r.log[|o.log|] == MeLine(c.me(|o.trace|))
  {
    var o1 := Log(Issue(o, GetMe), MeLine(c.me(|o.trace|)));
    var r := SendMessages(c, files, o, loaded, specific);
    assert Extends(o1, r);
    assert o1.trace[|o.trace|] == GetMe;
    assert o1.log[|o.log|] == MeLine(c.me(|o.trace|));
  }

  /** With nothing selected, `send_messages` logs who it is and that there is nothing to send, and stops. */
  lemma NothingSelected(c: Client, files: set<string>, o: Output, loaded: seq<MessageConfig>, specific: Option<MessageConfig>)
    requires Selection(loaded, specific) == []
    ensures SendMessages(c, files, o, loaded, specific) ==
            Output(o.log + [MeLine(c.me(|o.trace|)), NothingToSend], o.trace + [GetMe])
  {
  }

  /**
   * With something selected, the log of `send_messages` ends with the rule
   * and the totals, and the totals count every non-blank token of the
   * selected configurations once.
   */
  lemma RunEndsWithTotals(c: Client, files: set<string>, o: Output, loaded: seq<MessageConfig>, specific: Option<MessageConfig>)
    requires Selection(loaded, specific) != []
    ensures var r := SendMessages(c, files, o, loaded, specific);
            && |r.log| >= 2 && r.log[|r.log| - 2] == RuleLine()
            && exists sent: nat, failed: nat ::
                 sent + failed == TokensOf(Selection(loaded, specific)) && r.log[|r.log| - 1] == TotalLine(sent, failed)
  {
    var o1 := Log(Issue(o, GetMe), MeLine(c.me(|o.trace|)));
    var cfgs := Selection(loaded, specific);
    var o2 := if specific.None? then Log(o1, FoundLine(|loaded|)) else o1;
    var t := SendConfigs(c, files, o2, 1, cfgs);
    TotalsCoverTokens(c, files, o2, 1, cfgs);
    var r := SendMessages(c, files, o, loaded, specific);
    assert r == Log(Log(t.out, RuleLine()), TotalLine(t.sent, t.failed));
    assert r.log[|r.log| - 1] == TotalLine(t.sent, t.failed);
  }

  /**
   * `run_scheduled_task`: the summary sent to the admin after a scheduled
   * post ends with the run's totals line, whose counts cover the post's
   * non-blank recipient tokens.
   */
  lemma ScheduledSummaryEndsWithTotals(c: Client, files: set<string>, o: Output, loaded: seq<MessageConfig>, cfg: MessageConfig)
    ensures var r := SendMessages(c, files, o, loaded, Some(cfg));
            exists sent: nat, failed: nat ::
              sent + failed == NonBlank(cfg.recipients) &&
              Progress.EndsWith(Progress.ScheduledSummary(r.log), TotalLine(sent, failed))
  {
    var r := SendMessages(c, files, o, loaded, Some(cfg));
    RunEndsWithTotals(c, files, o, loaded, Some(cfg));
    assert TokensOf([cfg]) == NonBlank(cfg.recipients) by {
      assert [cfg][1..] == [];
    }
    var sent: nat, failed: nat :| sent + failed == TokensOf([cfg]) && r.log[|r.log| - 1] == TotalLine(sent, failed);
    Progress.SummaryShowsNewest(r.log);
  }
}
