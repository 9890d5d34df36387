/**
 * The administrator's side of bot_manager.py: the per-user add-message
 * wizard kept in `user_states`, `finalize_add_message`, and the remove
 * callback.  The persisted configuration and the media directory are fields
 * of one object, since every handler reads and rewrites them.
 */
module Wizard {
  import opened Basics
  import opened Strings
  import opened MessageStore

  // ---------------------------------------------------------------------------
  // The wizard's states and their transitions, as values

  /** The add-message states of `State` (the authorisation states are outside this model). */
  datatype Stage =
    | WaitingText
    | WaitingImages
    | WaitingRecipients
    | WaitingScheduleType
    | WaitingScheduleTime
    | WaitingScheduleDay

  /** One entry of `user_states`: the state and the definition collected so far (`data`). */
  datatype Session = Session(stage: Stage, draft: Definition)

  /** `{'text': '', 'image_paths': [], 'recipients': [], 'schedule': None}` */
  const NewDraft: Definition := Definition("", [], [], None)

  const Weekdays: seq<string> := ["Monday", "Tuesday", "Wednesday", "Thursday", "Friday", "Saturday", "Sunday"]

  /** The shape every session has once a schedule button was pressed: the time and day steps write into its schedule. */
  ghost predicate SessionOk(s: Session)
  {
    (s.stage == WaitingScheduleTime ==> s.draft.schedule.Some? && "type" in s.draft.schedule.value) &&
    (s.stage == WaitingScheduleDay ==> s.draft.schedule.Some?)
  }

  /** The time check: `':' in s and len(s.split(':')) == 2`. */
  predicate ValidTime(t: string)
  {
    ':' in t && |Split(t, ':')| == 2
  }

  /** The time check accepts exactly the strings with one `:`; nothing else about HH:MM is checked. */
  lemma ValidTimeOneColon(t: string)
    ensures ValidTime(t) <==> Count(t, ':') == 1
  {
    CountZero(t, ':');
  }

  /** What a message carries besides its text: nothing, a downloaded file (its absolute path), or a failed download. */
  datatype Media = NoMedia | Downloaded(path: string) | DownloadFailed

  datatype Incoming = Incoming(text: string, media: Media)

  /** The effect of one handler on the user's session. */
  datatype Transition =
    | Stay                       // the session is left as it is
    | Move(next: Session)        // the session is replaced
    | Finish(definition: Definition)   // finalize_add_message stores the definition

  /** The add-message branches of `conversation_handler` for one message. */
  function TextStep(s: Session, m: Incoming): (r: Transition)
    requires SessionOk(s)
    ensures r.Move? ==> SessionOk(r.next)
  {
    match s.stage
    case WaitingText => Move(Session(WaitingImages, s.draft.(text := m.text)))
    case WaitingImages => ImageArrived(s.draft, m.media)
    case WaitingRecipients => Move(Session(WaitingScheduleType, s.draft.(recipients := SplitList(m.text))))
    case WaitingScheduleType => Stay
    case WaitingScheduleTime => TimeEntered(s.draft, Strip(m.text))
    case WaitingScheduleDay => DayEntered(s.draft, Strip(m.text))
  }

  /** While images are awaited, each downloaded file is appended; anything else is ignored. */
  function ImageArrived(d: Definition, media: Media): Transition
  {
    if media.Downloaded? then Move(Session(WaitingImages, d.(imagePaths := d.imagePaths + [media.path])))
    else Stay
  }

  /** The trimmed time `t` for a schedule that has a `type`. */
  function TimeEntered(d: Definition, t: string): (r: Transition)
    requires d.schedule.Some? && "type" in d.schedule.value
    ensures r.Move? ==> SessionOk(r.next)
  {
    if ValidTime(t) then
      var schedule := d.schedule.value["time" := t];
      var d' := d.(schedule := Some(schedule));
      if schedule["type"] == "weekly" then Move(Session(WaitingScheduleDay, d')) else Finish(d')
    else Stay
  }

  /** The trimmed weekday name `day` for a weekly schedule. */
  function DayEntered(d: Definition, day: string): Transition
    requires d.schedule.Some?
  {
    if day in Weekdays then Finish(d.(schedule := Some(d.schedule.value["day" := day]))) else Stay
  }

  /** The schedules the `sched_daily` and `sched_weekly` buttons start from. */
  const DailySkeleton: Schedule := map["type" := "daily", "time" := ""]
  const WeeklySkeleton: Schedule := map["type" := "weekly", "time" := "", "day" := ""]

  /** `schedule_type_handler` for a session: the `sched_*` buttons. */
  function ScheduleButtonStep(s: Session, payload: string): (r: Transition)
    ensures r.Move? ==> SessionOk(r.next)
  {
    if s.stage != WaitingScheduleType then Stay
    else if payload == "sched_none" then Finish(s.draft.(schedule := None))
    else if payload == "sched_daily" then
      Move(Session(WaitingScheduleTime, s.draft.(schedule := Some(DailySkeleton))))
    else if payload == "sched_weekly" then
      Move(Session(WaitingScheduleTime, s.draft.(schedule := Some(WeeklySkeleton))))
    else Stay
  }

  /** `skip_images_handler` for a session. */
  function SkipImagesStep(s: Session): (r: Transition)
    ensures r.Move? ==> SessionOk(r.next)
  {
    if s.stage == WaitingImages then Move(Session(WaitingRecipients, s.draft)) else Stay
  }

  /** The order of the add-message states. */
  function Rank(st: Stage): nat
  {
    match st
    case WaitingText => 0
    case WaitingImages => 1
    case WaitingRecipients => 2
    case WaitingScheduleType => 3
    case WaitingScheduleTime => 4
    case WaitingScheduleDay => 5
  }

  /**
   * The wizard only moves forward: every step that replaces the session goes
   * to a later state, except an image arriving while images are awaited.
   */
  lemma WizardMovesForward(s: Session, m: Incoming, payload: string)
    requires SessionOk(s)
    ensures TextStep(s, m).Move? ==>
              Rank(TextStep(s, m).next.stage) > Rank(s.stage) ||
              (s.stage == WaitingImages && TextStep(s, m).next.stage == WaitingImages && m.media.Downloaded?)
    ensures ScheduleButtonStep(s, payload).Move? ==> Rank(ScheduleButtonStep(s, payload).next.stage) > Rank(s.stage)
    ensures SkipImagesStep(s).Move? ==> Rank(SkipImagesStep(s).next.stage) > Rank(s.stage)
  {
  }

  /**
   * The recipients step: the text is split on `,`, the pieces stripped and
   * blank ones dropped, and the wizard asks for the schedule type next.  The
   * recipients read back unchanged when written out comma-separated.
   */
  lemma RecipientsStep(s: Session, m: Incoming)
    requires SessionOk(s) && s.stage == WaitingRecipients
    ensures TextStep(s, m).Move?
    ensures var next := TextStep(s, m).next;
            && next.stage == WaitingScheduleType
            && next.draft == s.draft.(recipients := Clean(Split(m.text, ',')))
            && (forall i :: 0 <= i < |next.draft.recipients| ==> IsListItem(next.draft.recipients[i]))
            && SplitList(Join(next.draft.recipients, ",")) == next.draft.recipients
  {
    var r := SplitList(m.text);
    ListRoundTrip(r);
  }

  /**
   * The time step accepts exactly a trimmed text with one `:`; then a weekly
   * schedule asks for the day and a daily one is stored.  A rejected text
   * leaves the session unchanged.
   */
  lemma TimeStep(s: Session, m: Incoming)
    requires SessionOk(s) && s.stage == WaitingScheduleTime
    ensures TextStep(s, m) != Stay <==> Count(Strip(m.text), ':') == 1
    ensures TextStep(s, m).Move? ==>
              s.draft.schedule.value["type"] == "weekly" &&
              TextStep(s, m).next == Session(WaitingScheduleDay, s.draft.(schedule := Some(s.draft.schedule.value["time" := Strip(m.text)])))
    ensures TextStep(s, m).Finish? ==>
              s.draft.schedule.value["type"] != "weekly" &&
              TextStep(s, m).definition == s.draft.(schedule := Some(s.draft.schedule.value["time" := Strip(m.text)]))
  {
    ValidTimeOneColon(Strip(m.text));
  }

  /** The day step accepts one of the seven English weekday names, as typed but trimmed, and nothing else. */
  lemma DayStep(s: Session, m: Incoming)
    requires SessionOk(s) && s.stage == WaitingScheduleDay
    ensures TextStep(s, m).Finish? <==> Strip(m.text) in Weekdays
    ensures TextStep(s, m).Finish? ==>
              TextStep(s, m).definition == s.draft.(schedule := Some(s.draft.schedule.value["day" := Strip(m.text)]))
    ensures !TextStep(s, m).Finish? ==> TextStep(s, m) == Stay
  {
  }

  /** The text step stores the message text as sent and asks for images. */
  lemma TextEntered(s: Session, m: Incoming)
    requires s.stage == WaitingText
    ensures TextStep(s, m) == Move(Session(WaitingImages, s.draft.(text := m.text)))
  {
  }

  /** An image arriving while images are awaited is appended to the draft's image paths. */
  lemma ImageStep(s: Session, m: Incoming)
    requires s.stage == WaitingImages && m.media.Downloaded?
    ensures TextStep(s, m) == Move(Session(WaitingImages, s.draft.(imagePaths := s.draft.imagePaths + [m.media.path])))
  {
  }

  /** The three schedule buttons pressed while the schedule type is awaited. */
  lemma ButtonSchedules(d: Definition)
    ensures ScheduleButtonStep(Session(WaitingScheduleType, d), "sched_none") == Finish(d.(schedule := None))
    ensures ScheduleButtonStep(Session(WaitingScheduleType, d), "sched_daily") ==
              Move(Session(WaitingScheduleTime, d.(schedule := Some(DailySkeleton))))
    ensures ScheduleButtonStep(Session(WaitingScheduleType, d), "sched_weekly") ==
              Move(Session(WaitingScheduleTime, d.(schedule := Some(WeeklySkeleton))))
  {
  }

  /**
   * An accepted time completes the daily skeleton the `sched_daily` button
   * set: the definition is stored with exactly the type and the time.
   */
  lemma DailyTime(d: Definition, t: string)
    requires ValidTime(t)
    ensures TimeEntered(d.(schedule := Some(DailySkeleton)), t) ==
              Finish(d.(schedule := Some(map["type" := "daily", "time" := t])))
  {
    assert DailySkeleton["type"][0] != "weekly"[0];
    assert DailySkeleton["time" := t] == map["type" := "daily", "time" := t];
  }

  /** An accepted time in the weekly skeleton the `sched_weekly` button set asks for the day, keeping the time. */
  lemma WeeklyTime(d: Definition, t: string)
    requires ValidTime(t)
    ensures TimeEntered(d.(schedule := Some(WeeklySkeleton)), t) ==
              Move(Session(WaitingScheduleDay, d.(schedule := Some(WeeklySkeleton["time" := t]))))
  {
    assert WeeklySkeleton["type"] == "weekly";
  }

  /** An accepted day then completes the weekly schedule: exactly the type, the time and the day. */
  lemma WeeklyDay(d: Definition, t: string, day: string)
    requires day in Weekdays
    ensures DayEntered(d.(schedule := Some(WeeklySkeleton["time" := t])), day) ==
              Finish(d.(schedule := Some(map["type" := "weekly", "time" := t, "day" := day])))
  {
    assert WeeklySkeleton["time" := t]["day" := day] == map["type" := "weekly", "time" := t, "day" := day];
  }

  // ---------------------------------------------------------------------------
  // The remove callback's payload

  /** `data.split('_', 1)[1]`: the text after the first `_` of a callback payload. */
  function CallbackId(payload: string): string
    requires '_' in payload
  {
    SplitOnce(payload, '_').1
  }

  /** For an `rm_` payload that is everything after the prefix. */
  lemma CallbackIdAfterPrefix(payload: string)
    requires StartsWith(payload, "rm_")
    ensures '_' in payload && CallbackId(payload) == payload[3..]
  {
    assert payload[2] == '_';
    var i := IndexOf(payload, '_');
    assert payload[..i][0] == 'r';
    assert i == 2;
  }

  /** The elements of a list of paths. */
  function SetOf(xs: seq<string>): set<string>
  {
    set p | p in xs
  }

  /** The image paths of the given definitions. */
  function AllPaths(ids: seq<string>, defs: map<string, Definition>): set<string>
    requires forall i :: 0 <= i < |ids| ==> ids[i] in defs
  {
    if ids == [] then {}
    else AllPaths(ids[..|ids| - 1], defs) + SetOf(defs[ids[|ids| - 1]].imagePaths)
  }

  datatype RemoveStatus =
    | RemovedAll(deletedFiles: nat)
    | Removed(id: string, deletedFiles: nat)
    | NotFound(id: string)

  lemma AddOneFile(f0: set<string>, a: set<string>, x: string)
    ensures x in f0 - a ==> |f0 * (a + {x})| == |f0 * a| + 1
    ensures x !in f0 - a ==> f0 * (a + {x}) == f0 * a
  {
    if x in f0 - a {
      assert f0 * (a + {x}) == (f0 * a) + {x};
    }
  }

  lemma AddFiles(f0: set<string>, a: set<string>, b: set<string>)
    ensures |f0 * (a + b)| == |f0 * a| + |(f0 - a) * b|
  {
    assert f0 * (a + b) == (f0 * a) + ((f0 - a) * b);
    assert (f0 * a) * ((f0 - a) * b) == {};
  }

  // ---------------------------------------------------------------------------
  // The handlers

  class BotManager {
    /** `ADMIN_ID`: every handler answers only this sender. */
    const admin: int
    /** The persisted `config['messages']`, as `load_config` reads it and `save_config` writes it. */
    var store: Store
    /** `user_states` */
    var sessions: map<int, Session>
    /** The media files that exist on disk. */
    var files: set<string>

    ghost predicate Valid()
      reads this
    {
      store.Valid() && forall u :: u in sessions ==> SessionOk(sessions[u])
    }

    constructor (admin: int, store: Store, files: set<string>)
      requires store.Valid()
      ensures Valid()
      ensures this.admin == admin && this.store == store && this.files == files && sessions == map[]
    {
      this.admin := admin;
      this.store := store;
      this.files := files;
      sessions := map[];
    }

    /** What a handler did to the session of `user` and to the store. */
    twostate predicate Stepped(user: int, t: Transition, new added: Option<string>)
      reads this
    {
      match t
      case Stay => store == old(store) && sessions == old(sessions) && added == None
      case Move(next) => store == old(store) && sessions == old(sessions)[user := next] && added == None
      case Finish(d) =>
        && added.Some?
        && IsNextId(old(store.ids), added.value)
        && store.ids == old(store.ids) + [added.value]
        && store.defs == old(store.defs)[added.value := d]
        && sessions == old(sessions) - {user}
    }

    /**
     * `finalize_add_message`: allocate the next id, store the definition
     * under it after every existing one, and end the user's session.
     */
    method Finalize(user: int, d: Definition) returns (newId: string)
      requires Valid()
      modifies this
      ensures Valid() && files == old(files)
      ensures IsNextId(old(store.ids), newId) && newId !in old(store.defs)
      ensures store.ids == old(store.ids) + [newId]
      ensures store.defs == old(store.defs)[newId := d]
      ensures sessions == old(sessions) - {user}
    {
      newId := AllocateId(store.ids);
      store := Insert(store, newId, d);
      sessions := sessions - {user};
    }

    method Apply(user: int, t: Transition) returns (added: Option<string>)
      requires Valid() && (t.Move? ==> SessionOk(t.next))
      modifies this
      ensures Valid() && files == old(files)
      ensures Stepped(user, t, added)
    {
      match t
      case Stay =>
        added := None;
      case Move(next) =>
        sessions := sessions[user := next];
        added := None;
      case Finish(d) =>
        var id := Finalize(user, d);
        added := Some(id);
    }

    /** `add_message_handler`: start (or restart) the wizard with an empty draft. */
    method HandleAddMessage(user: int)
      requires Valid()
      modifies this
      ensures Valid() && store == old(store) && files == old(files)
      ensures sessions == if user == admin then old(sessions)[user := Session(WaitingText, NewDraft)] else old(sessions)
    {
      if user == admin {
        sessions := sessions[user := Session(WaitingText, NewDraft)];
      }
    }

    /**
     * `conversation_handler` for the add-message states.  A downloaded image
     * is a new file on disk; the id of a stored definition is returned.
     */
    method HandleMessage(user: int, m: Incoming) returns (added: Option<string>)
      requires Valid()
      modifies this
      ensures Valid()
      ensures user != admin || user !in old(sessions) ==> unchanged(this) && added == None
      ensures user == admin && user in old(sessions) ==> Stepped(user, TextStep(old(sessions[user]), m), added)
      ensures files == if user == admin && user in old(sessions) && old(sessions[user]).stage == WaitingImages && m.media.Downloaded?
                       then old(files) + {m.media.path} else old(files)
    {
      if user != admin || user !in sessions {
        return None;
      }
      var s := sessions[user];
      if s.stage == WaitingImages && m.media.Downloaded? {
        files := files + {m.media.path};
      }
      added := Apply(user, TextStep(s, m));
    }

    /** `schedule_type_handler`: acts only on a session waiting for the schedule type. */
    method HandleScheduleButton(user: int, payload: string) returns (added: Option<string>)
      requires Valid()
      modifies this
      ensures Valid() && files == old(files)
      ensures user != admin || user !in old(sessions) ==> unchanged(this) && added == None
      ensures user == admin && user in old(sessions) ==> Stepped(user, ScheduleButtonStep(old(sessions[user]), payload), added)
    {
      if user != admin || user !in sessions {
        return None;
      }
      added := Apply(user, ScheduleButtonStep(sessions[user], payload));
    }

    /** `skip_images_handler`: moves a session waiting for images on to the recipients. */
    method HandleSkipImages(user: int)
      requires Valid()
      modifies this
      ensures Valid() && store == old(store) && files == old(files)
      ensures user != admin || user !in old(sessions) ==> sessions == old(sessions)
      ensures user == admin && user in old(sessions) ==> Stepped(user, SkipImagesStep(old(sessions[user])), None)
    {
      if user != admin || user !in sessions {
        return;
      }
      var _ := Apply(user, SkipImagesStep(sessions[user]));
    }

    /** Delete the listed files that exist, counting each file once. */
    method DeleteFiles(paths: seq<string>) returns (deleted: nat)
      modifies this`files
      ensures files == old(files) - SetOf(paths)
      ensures deleted == |old(files) * SetOf(paths)|
    {
      ghost var f0 := files;
      deleted := 0;
      for i := 0 to |paths|
        invariant files == f0 - SetOf(paths[..i])
        invariant deleted == |f0 * SetOf(paths[..i])|
      {
        assert SetOf(paths[..i + 1]) == SetOf(paths[..i]) + {paths[i]};
        AddOneFile(f0, SetOf(paths[..i]), paths[i]);
        if paths[i] in files {
          files := files - {paths[i]};
          deleted := deleted + 1;
        }
      }
      assert paths[..|paths|] == paths;
    }

    /** The image files of every stored message, deleted one message after another. */
    method DeleteAllFiles(ids: seq<string>, defs: map<string, Definition>) returns (deleted: nat)
      requires forall i :: 0 <= i < |ids| ==> ids[i] in defs
      modifies this`files
      ensures files == old(files) - AllPaths(ids, defs)
      ensures deleted == |old(files) * AllPaths(ids, defs)|
    {
      ghost var f0 := files;
      deleted := 0;
      for i := 0 to |ids|
        invariant files == f0 - AllPaths(ids[..i], defs)
        invariant deleted == |f0 * AllPaths(ids[..i], defs)|
      {
        assert ids[..i + 1][..i] == ids[..i];
        AddFiles(f0, AllPaths(ids[..i], defs), SetOf(defs[ids[i]].imagePaths));
        var n := DeleteFiles(defs[ids[i]].imagePaths);
        deleted := deleted + n;
      }
      assert ids[..|ids|] == ids;
    }

    /**
     * `callback_remove_handler` for an `rm_<id>` payload: `all` empties the
     * store, a stored id is removed, anything else is reported as not found.
     * The image files of what is removed are deleted from disk.
     */
    method HandleRemoveButton(user: int, payload: string) returns (status: Option<RemoveStatus>)
      requires Valid() && StartsWith(payload, "rm_")
      modifies this
      ensures Valid() && sessions == old(sessions)
      ensures user != admin ==> unchanged(this) && status == None
      ensures user == admin && payload[3..] == "all" ==>
                var gone := AllPaths(old(store.ids), old(store.defs));
                store == EmptyStore && files == old(files) - gone && status == Some(RemovedAll(|old(files) * gone|))
      ensures user == admin && payload[3..] != "all" && payload[3..] in old(store.defs) ==>
                var gone := SetOf(old(store.defs[payload[3..]].imagePaths));
                store == Remove(old(store), payload[3..]) && files == old(files) - gone &&
                status == Some(Removed(payload[3..], |old(files) * gone|))
      ensures user == admin && payload[3..] != "all" && payload[3..] !in old(store.defs) ==>
                store == old(store) && files == old(files) && status == Some(NotFound(payload[3..]))
    {
      if user != admin {
        return None;
      }
      CallbackIdAfterPrefix(payload);
      var id := CallbackId(payload);
      if id == "all" {
        var deleted := DeleteAllFiles(store.ids, store.defs);
        store := EmptyStore;
        return Some(RemovedAll(deleted));
      }
      if id in store.defs {
        var n := DeleteFiles(store.defs[id].imagePaths);
        store := Remove(store, id);
        status := Some(Removed(id, n));
      } else {
        status := Some(NotFound(id));
      }
    }
  }
}
