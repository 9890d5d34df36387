/**
 * The `TelegramSender` object of telegram_sender.py: it loads its message
 * configurations once, then `send_messages` walks them, issuing client calls
 * and logging as it goes.  Every method is proved to do exactly what the
 * functions of `Delivery` and `SenderConfig` say.
 */
module Sender {
  import opened Basics
  import opened Strings
  import opened SenderConfig
  import opened Delivery

  class TelegramSender {
    /** The Telegram side, and the paths that exist. */
    const client: Client
    const files: set<string>
    /** `self.messages_config` */
    const messagesConfig: seq<MessageConfig>
    /** The lines given to `self.log`, and the calls issued to the client, in order. */
    var log: seq<string>
    var trace: seq<Call>

    function Out(): Output
      reads this
    {
      Output(log, trace)
    }

    /** `__init__`: the configurations are loaded, and the lines loading logged come first in the log. */
    constructor (client: Client, files: set<string>, yaml: Option<YamlFile>, env: Env)
      ensures this.client == client && this.files == files
      ensures messagesConfig == Load(yaml, env).configs
      ensures Out() == Output(Load(yaml, env).warnings, [])
    {
      var configs, warnings := LoadMessagesConfig(yaml, env);
      this.client := client;
      this.files := files;
      messagesConfig := configs;
      log := warnings;
      trace := [];
    }

    /** `self.log(line)` */
    method Emit(line: string)
      modifies this
      ensures Out() == Log(old(Out()), line)
    {
      log := log + [line];
    }

    method SendCall(call: Call) returns (failure: Option<Failure>)
      modifies this
      ensures failure == client.send(|old(trace)|, call) && Out() == Issue(old(Out()), call)
    {
      failure := client.send(|trace|, call);
      trace := trace + [call];
    }

    method GetEntityCall(q: Query) returns (entity: Outcome<Entity>)
      modifies this
      ensures entity == client.entity(|old(trace)|, q) && Out() == Issue(old(Out()), GetEntity(q))
    {
      entity := client.entity(|trace|, q);
      trace := trace + [GetEntity(q)];
    }

    method GetForumTopicsCall(group: Entity) returns (topics: Outcome<seq<Topic>>)
      modifies this
      ensures topics == client.topics(|old(trace)|, group) && Out() == Issue(old(Out()), GetForumTopics(group, TopicLimit))
    {
      topics := client.topics(|trace|, group);
      trace := trace + [GetForumTopics(group, TopicLimit)];
    }

    method GetMeCall() returns (me: Outcome<Me>)
      modifies this
      ensures me == client.me(|old(trace)|) && Out() == Issue(old(Out()), GetMe)
    {
      me := client.me(|trace|);
      trace := trace + [GetMe];
    }

    /** `_send_message_with_images`: the escaping exception, if any, is returned. */
    method SendMessageWithImages(e: Entity, message: string, paths: seq<string>, replyTo: Option<int>)
      returns (failure: Option<Failure>)
      modifies this
      ensures Sent(Out(), failure) == SendWithImages(client, files, old(Out()), e, message, paths, replyTo)
    {
      var valid := Existing(paths, files);
      if valid != [] {
        WarnMissing(paths, valid);
        SendAlbum(client, files, old(Out()), e, message, paths, replyTo);
        var f1 := SendCall(SendFile(e, valid, if message != "" then Some(message) else None, replyTo));
        if f1.None? {
          failure := None;
        } else {
          Emit(CaptionFallback + f1.value.text);
          failure := SendCall(SendFile(e, valid, None, replyTo));
          if failure.None? && message != "" {
            failure := SendCall(SendMessage(e, message, None));
          }
        }
      } else if message != "" {
        SendTextOnly(client, files, old(Out()), e, message, paths, replyTo);
        failure := SendCall(SendMessage(e, message, replyTo));
      } else {
        failure := None;
      }
    }

    /** `for img_path in image_paths: if img_path not in valid_images: self.log(...)` */
    method WarnMissing(paths: seq<string>, valid: seq<string>)
      requires valid == Existing(paths, files)
      modifies this
      ensures Out() == old(Out()).(log := old(log) + MissingLines(Missing(paths, files)))
    {
      for i := 0 to |paths|
        invariant log == old(log) + MissingLines(Missing(paths[..i], files)) && trace == old(trace)
      {
        MissingSnoc(paths[..i], paths[i], files);
        assert paths[..i + 1] == paths[..i] + [paths[i]];
        ExistingMember(paths, files, paths[i]);
        if paths[i] !in valid {
          Emit(MissingLine(paths[i]));
        }
      }
      assert paths[..|paths|] == paths;
    }

    /** The `group:topic` attempt. */
    method TryTopic(r: string, message: string, paths: seq<string>) returns (t: TopicResult)
      requires ':' in r
      modifies this
      ensures t == ViaTopic(client, files, old(Out()), r, message, paths) && Out() == t.out
    {
      var parts := SplitOnce(r, ':');
      var gid := PyInt(parts.0);
      if gid.None? {
        return FallThrough(Out());
      }
      var group := GetEntityCall(ById(gid.value));
      if group.Raised? {
        return Caught(Out(), group.failure);
      }
      var tid := PyInt(parts.1);
      if tid.None? {
        return FallThrough(Out());
      }
      var topics := GetForumTopicsCall(group.value);
      if topics.Raised? {
        return Caught(Out(), topics.failure);
      }
      var topic := FindTopic(topics.value, tid.value);
      if topic.None? || topic.value.topMessage == 0 {
        return FallThrough(Out());
      }
      var failure := SendMessageWithImages(group.value, message, paths, Some(topic.value.topMessage));
      if failure.Some? {
        return Caught(Out(), failure.value);
      }
      Emit(TopicSentLine(tid.value, parts.0));
      t := TopicSent(Out());
    }

    /** Resolve the token as a number, else as a name, and send. */
    method SendRegular(r: string, message: string, paths: seq<string>) returns (failure: Option<Failure>)
      modifies this
      ensures Sent(Out(), failure) == ViaEntity(client, files, old(Out()), r, message, paths)
    {
      var entity: Outcome<Entity>;
      var n := PyInt(r);
      if n.Some? {
        entity := GetEntityCall(ById(n.value));
        if entity.Raised? && entity.failure.valueError {
          entity := GetEntityCall(ByName(r));
        }
      } else {
        entity := GetEntityCall(ByName(r));
      }
      if entity.Raised? {
        return Some(entity.failure);
      }
      failure := SendMessageWithImages(entity.value, message, paths, None);
      if failure.None? {
        Emit(SentLine(r));
      }
    }

    /** The body of the recipient loop for one stripped, non-blank token. */
    method Deliver(r: string, message: string, paths: seq<string>) returns (ok: bool)
      modifies this
      ensures Delivered(Out(), ok) == DeliverTo(client, files, old(Out()), r, message, paths)
    {
      if ':' in r && !StartsWith(r, "@") {
        var t := TryTopic(r, message, paths);
        match t
        case TopicSent(_) =>
          return true;
        case TopicFailed(_, f) =>
          Emit(FailedLine(r, f));
          return false;
        case FallThrough(_) =>
      }
      var failure := SendRegular(r, message, paths);
      if failure.Some? {
        Emit(FailedLine(r, failure.value));
        ok := false;
      } else {
        ok := true;
      }
    }

    /** `for recipient in recipients:` */
    method SendToRecipients(rs: seq<string>, message: string, paths: seq<string>) returns (sent: nat, failed: nat)
      modifies this
      ensures Tally(Out(), sent, failed) == SendToAll(client, files, old(Out()), rs, message, paths)
    {
      ghost var all := SendToAll(client, files, Out(), rs, message, paths);
      sent, failed := 0, 0;
      for i := 0 to |rs|
        invariant var rest := SendToAll(client, files, Out(), rs[i..], message, paths);
                  rest.out == all.out && sent + rest.sent == all.sent && failed + rest.failed == all.failed
      {
        assert rs[i..][1..] == rs[i + 1..];
        var r := Strip(rs[i]);
        if r == "" {
          continue;
        }
        var ok := Deliver(r, message, paths);
        if ok {
          sent := sent + 1;
        } else {
          failed := failed + 1;
        }
      }
    }

    /** One configuration of the loop over `configs_to_send`, numbered `idx`. */
    method SendOne(idx: nat, config: MessageConfig) returns (sent: nat, failed: nat)
      modifies this
      ensures Tally(Out(), sent, failed) == SendConfig(client, files, old(Out()), idx, config)
    {
      if config.recipients == [] {
        Emit(SkipLine(idx));
        return 0, 0;
      }
      Emit(HeaderLine(idx, |config.recipients|));
      if config.imagePaths != [] {
        Emit(ImagesLine(|config.imagePaths|));
      }
      sent, failed := SendToRecipients(config.recipients, config.message, config.imagePaths);
      Emit(SummaryLine(sent, failed));
    }

    /** `for idx, config in enumerate(configs_to_send, 1):`, adding up the per-configuration counts. */
    method SendAll(configs: seq<MessageConfig>) returns (totalSent: nat, totalFailed: nat)
      modifies this
      ensures Tally(Out(), totalSent, totalFailed) == SendConfigs(client, files, old(Out()), 1, configs)
    {
      ghost var all := SendConfigs(client, files, Out(), 1, configs);
      totalSent, totalFailed := 0, 0;
      for k := 0 to |configs|
        invariant var rest := SendConfigs(client, files, Out(), k + 1, configs[k..]);
                  rest.out == all.out && totalSent + rest.sent == all.sent && totalFailed + rest.failed == all.failed
      {
        assert configs[k..][1..] == configs[k + 1..];
        var sent, failed := SendOne(k + 1, configs[k]);
        totalSent, totalFailed := totalSent + sent, totalFailed + failed;
      }
    }

    /** `send_messages(specific_config)`. */
    method SendMessages(specific: Option<MessageConfig>)
      modifies this
      ensures Out() == Delivery.SendMessages(client, files, old(Out()), messagesConfig, specific)
    {
      var me := GetMeCall();
      Emit(MeLine(me));
      var configs := if specific.Some? then [specific.value] else messagesConfig;
      if configs == [] {
        Emit(NothingToSend);
        return;
      }
      if specific.None? {
        Emit(FoundLine(|messagesConfig|));
      }
      var totalSent, totalFailed := SendAll(configs);
      Emit(RuleLine());
      Emit(TotalLine(totalSent, totalFailed));
    }
  }
}
