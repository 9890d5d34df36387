/**
 * A whole add-message conversation of bot_manager.py as a sequence of the
 * admin's events, fed one at a time to the wizard's transitions.
 */
module Conversation {
  import opened Basics
  import opened Strings
  import opened MessageStore
  import opened Wizard
  import opened Scheduler

  /** What the admin does in a chat: send a message, press a schedule button, or press "skip images". */
  datatype Event = Text(m: Incoming) | Button(payload: string) | SkipImages

  /**
   * The patterns of the command handlers registered before
   * `conversation_handler`.  A pattern matches at the start of the text, and
   * each of those handlers stops propagation, so such a text never reaches
   * the wizard.
   */
  const CommandPatterns: seq<string> := ["/start", "/list_message", "📋 List Messages", "/remove_message",
                                          "❌ Remove Message", "/auth", "🔑 Auth", "/add_message", "➕ Add Message"]

  /** A text taken by an earlier command handler. */
  predicate Intercepted(text: string)
  {
    exists p :: p in CommandPatterns && StartsWith(text, p)
  }

  /** Every message of the conversation reaches `conversation_handler`. */
  predicate ReachesWizard(es: seq<Event>)
  {
    forall i :: 0 <= i < |es| && es[i].Text? ==> !Intercepted(es[i].m.text)
  }

  function Step(s: Session, e: Event): (r: Transition)
    requires SessionOk(s)
    ensures r.Move? ==> SessionOk(r.next)
  {
    match e
    case Text(m) => TextStep(s, m)
    case Button(p) => ScheduleButtonStep(s, p)
    case SkipImages => SkipImagesStep(s)
  }

  /**
   * A conversation: the events are handled in order until the definition is
   * stored (later events find no session); otherwise the result is the
   * session reached.
   */
  function Run(s: Session, es: seq<Event>): (r: Transition)
    requires SessionOk(s)
    ensures !r.Stay? && (r.Move? ==> SessionOk(r.next))
    decreases es
  {
    if es == [] then Move(s)
    else match Step(s, es[0])
      case Stay => Run(s, es[1..])
      case Move(n) => Run(n, es[1..])
      case Finish(d) => Finish(d)
  }

  lemma RunMove(s: Session, e: Event, rest: seq<Event>)
    requires SessionOk(s) && Step(s, e).Move?
    ensures Run(s, [e] + rest) == Run(Step(s, e).next, rest)
  {
    assert ([e] + rest)[0] == e;
    assert ([e] + rest)[1..] == rest;
  }

  lemma RunFinish(s: Session, e: Event, rest: seq<Event>)
    requires SessionOk(s) && Step(s, e).Finish?
    ensures Run(s, [e] + rest) == Step(s, e)
  {
    assert ([e] + rest)[0] == e;
  }

  lemma RunText(s: Session, m: Incoming, rest: seq<Event>)
    requires s.stage == WaitingText
    ensures Run(s, [Text(m)] + rest) == Run(Session(WaitingImages, s.draft.(text := m.text)), rest)
  {
    TextEntered(s, m);
    RunMove(s, Text(m), rest);
  }

  lemma RunImage(s: Session, m: Incoming, rest: seq<Event>)
    requires s.stage == WaitingImages && m.media.Downloaded?
    ensures Run(s, [Text(m)] + rest) ==
            Run(Session(WaitingImages, s.draft.(imagePaths := s.draft.imagePaths + [m.media.path])), rest)
  {
    ImageStep(s, m);
    RunMove(s, Text(m), rest);
  }

  lemma RunSkip(s: Session, rest: seq<Event>)
    requires s.stage == WaitingImages
    ensures Run(s, [SkipImages] + rest) == Run(Session(WaitingRecipients, s.draft), rest)
  {
    RunMove(s, SkipImages, rest);
  }

  lemma RunRecipients(s: Session, m: Incoming, rest: seq<Event>)
    requires s.stage == WaitingRecipients
    ensures Run(s, [Text(m)] + rest) == Run(Session(WaitingScheduleType, s.draft.(recipients := SplitList(m.text))), rest)
  {
    RecipientsStep(s, m);
    RunMove(s, Text(m), rest);
  }

  lemma RunButton(s: Session, p: string, rest: seq<Event>)
    requires s.stage == WaitingScheduleType && (p == "sched_daily" || p == "sched_weekly")
    ensures Run(s, [Button(p)] + rest) ==
            Run(Session(WaitingScheduleTime, s.draft.(schedule := Some(
                  if p == "sched_daily" then DailySkeleton else WeeklySkeleton))), rest)
  {
    ButtonSchedules(s.draft);
    RunMove(s, Button(p), rest);
  }

  lemma RunTime(s: Session, m: Incoming, rest: seq<Event>)
    requires SessionOk(s) && s.stage == WaitingScheduleTime && Count(Strip(m.text), ':') == 1
    ensures var t := Strip(m.text);
            var d := s.draft.(schedule := Some(s.draft.schedule.value["time" := t]));
            Run(s, [Text(m)] + rest) ==
              if s.draft.schedule.value["type"] == "weekly" then Run(Session(WaitingScheduleDay, d), rest) else Finish(d)
  {
    TimeStep(s, m);
    if TextStep(s, m).Move? {
      RunMove(s, Text(m), rest);
    } else {
      RunFinish(s, Text(m), rest);
    }
  }

  lemma RunDay(s: Session, m: Incoming, rest: seq<Event>)
    requires SessionOk(s) && s.stage == WaitingScheduleDay && Strip(m.text) in Weekdays
    ensures Run(s, [Text(m)] + rest) == Finish(s.draft.(schedule := Some(s.draft.schedule.value["day" := Strip(m.text)])))
  {
    DayStep(s, m);
    RunFinish(s, Text(m), rest);
  }

  lemma Unfold3(a: Event, b: Event, c: Event)
    ensures [a, b, c] == [a] + ([b] + ([c] + []))
  {
  }

  lemma Unfold4(a: Event, b: Event, c: Event, d: Event)
    ensures [a, b, c, d] == [a] + ([b] + ([c] + ([d] + [])))
  {
  }

  /** A whole daily conversation, images skipped: the definition is stored right after the time. */
  lemma DailyRun(text: string, recipients: string, time: string)
    requires !Intercepted(text) && !Intercepted(recipients) && !Intercepted(time)
    requires Count(Strip(time), ':') == 1
    ensures Run(Session(WaitingText, NewDraft),
                [Text(Incoming(text, NoMedia)), SkipImages, Text(Incoming(recipients, NoMedia)),
                 Button("sched_daily"), Text(Incoming(time, NoMedia))])
         == Finish(Definition(text, [], SplitList(recipients), Some(map["type" := "daily", "time" := Strip(time)])))
  {
    var e1, e2, e3, e4, e5 := Text(Incoming(text, NoMedia)), SkipImages, Text(Incoming(recipients, NoMedia)),
                              Button("sched_daily"), Text(Incoming(time, NoMedia));
    Unfold4(e2, e3, e4, e5);
    assert [e1, e2, e3, e4, e5] == [e1] + [e2, e3, e4, e5];
    var d1 := NewDraft.(text := text);
    RunText(Session(WaitingText, NewDraft), Incoming(text, NoMedia), [e2] + ([e3] + ([e4] + ([e5] + []))));
    RunSkip(Session(WaitingImages, d1), [e3] + ([e4] + ([e5] + [])));
    var d3 := d1.(recipients := SplitList(recipients));
    RunRecipients(Session(WaitingRecipients, d1), Incoming(recipients, NoMedia), [e4] + ([e5] + []));
    var d4 := d3.(schedule := Some(DailySkeleton));
    RunButton(Session(WaitingScheduleType, d3), "sched_daily", [e5] + []);
    RunTime(Session(WaitingScheduleTime, d4), Incoming(time, NoMedia), []);
    DailyDraft(d3, Strip(time));
  }

  /** A conversation can be handled in two parts: the second part starts from the session the first reaches. */
  lemma {:induction false} RunAppend(s: Session, a: seq<Event>, b: seq<Event>)
    requires SessionOk(s)
    ensures Run(s, a).Move? ==> Run(s, a + b) == Run(Run(s, a).next, b)
    ensures Run(s, a).Finish? ==> Run(s, a + b) == Run(s, a)
    decreases a
  {
    if a == [] {
      assert a + b == b;
    } else {
      assert (a + b)[0] == a[0];
      assert (a + b)[1..] == a[1..] + b;
      match Step(s, a[0])
      case Stay => RunAppend(s, a[1..], b);
      case Move(n) => RunAppend(n, a[1..], b);
      case Finish(_) =>
    }
  }

  /** The daily skeleton with the time filled in. */
  lemma DailyDraft(d: Definition, t: string)
    ensures var d4 := d.(schedule := Some(DailySkeleton));
            d4.(schedule := Some(d4.schedule.value["time" := t])) ==
              d.(schedule := Some(map["type" := "daily", "time" := t]))
  {
    assert DailySkeleton["time" := t] == map["type" := "daily", "time" := t];
  }

  /** The draft a weekly conversation with one image builds, field by field. */
  lemma WeeklyDraft(text: string, image: string, recipients: seq<string>, t: string, day: string)
    ensures var d1 := NewDraft.(text := text);
            var d3 := d1.(imagePaths := d1.imagePaths + [image]).(recipients := recipients);
            var d4 := d3.(schedule := Some(WeeklySkeleton));
            var d5 := d4.(schedule := Some(d4.schedule.value["time" := t]));
            d5.(schedule := Some(d5.schedule.value["day" := day])) ==
              Definition(text, [image], recipients, Some(map["type" := "weekly", "time" := t, "day" := day]))
  {
    assert WeeklySkeleton["time" := t]["day" := day] == map["type" := "weekly", "time" := t, "day" := day];
  }

  /** A whole weekly conversation with one image: the definition is stored after the day. */
  lemma WeeklyRun(text: string, image: string, recipients: string, time: string, day: string)
    requires !Intercepted(text) && !Intercepted(recipients) && !Intercepted(time) && !Intercepted(day)
    requires Count(Strip(time), ':') == 1 && Strip(day) in Weekdays
    ensures Run(Session(WaitingText, NewDraft),
                [Text(Incoming(text, NoMedia)), Text(Incoming("", Downloaded(image))), SkipImages] +
                [Text(Incoming(recipients, NoMedia)), Button("sched_weekly"),
                 Text(Incoming(time, NoMedia)), Text(Incoming(day, NoMedia))])
         == Finish(Definition(text, [image], SplitList(recipients),
                              Some(map["type" := "weekly", "time" := Strip(time), "day" := Strip(day)])))
  {
    var e1, e2, e3, e4 := Text(Incoming(text, NoMedia)), Text(Incoming("", Downloaded(image))), SkipImages,
                          Text(Incoming(recipients, NoMedia));
    var e5, e6, e7 := Button("sched_weekly"), Text(Incoming(time, NoMedia)), Text(Incoming(day, NoMedia));
    Unfold3(e1, e2, e3);
    Unfold4(e4, e5, e6, e7);
    var s0 := Session(WaitingText, NewDraft);
    var d1 := NewDraft.(text := text);
    RunText(s0, Incoming(text, NoMedia), [e2] + ([e3] + []));
    var d2 := d1.(imagePaths := d1.imagePaths + [image]);
    RunImage(Session(WaitingImages, d1), Incoming("", Downloaded(image)), [e3] + []);
    RunSkip(Session(WaitingImages, d2), []);
    RunAppend(s0, [e1, e2, e3], [e4, e5, e6, e7]);
    var d3 := d2.(recipients := SplitList(recipients));
    RunRecipients(Session(WaitingRecipients, d2), Incoming(recipients, NoMedia), [e5] + ([e6] + ([e7] + [])));
    var d4 := d3.(schedule := Some(WeeklySkeleton));
    RunButton(Session(WaitingScheduleType, d3), "sched_weekly", [e6] + ([e7] + []));
    var d5 := d4.(schedule := Some(WeeklySkeleton["time" := Strip(time)]));
    RunTime(Session(WaitingScheduleTime, d4), Incoming(time, NoMedia), [e7] + []);
    RunDay(Session(WaitingScheduleDay, d5), Incoming(day, NoMedia), []);
    WeeklyDraft(text, image, SplitList(recipients), Strip(time), Strip(day));
  }

  // ---------------------------------------------------------------------------
  // What the wizard stores is readable by the scheduler

  /** A session whose draft schedule the scheduler's test can always read. */
  ghost predicate Schedulable(s: Session)
  {
    && SessionOk(s)
    && Readable(s.draft.schedule)
    && (s.stage == WaitingScheduleDay ==> "type" in s.draft.schedule.value)
  }

  /** Every step keeps the draft schedule readable, and stores only readable schedules. */
  lemma StepKeepsReadable(s: Session, e: Event)
    requires Schedulable(s)
    ensures Step(s, e).Move? ==> Schedulable(Step(s, e).next)
    ensures Step(s, e).Finish? ==> Readable(Step(s, e).definition.schedule)
  {
    match e
    case Text(m) => TextKeepsReadable(s, m);
    case Button(p) => ButtonKeepsReadable(s, p);
    case SkipImages =>
  }

  lemma TextKeepsReadable(s: Session, m: Incoming)
    requires Schedulable(s)
    ensures TextStep(s, m).Move? ==> Schedulable(TextStep(s, m).next)
    ensures TextStep(s, m).Finish? ==> Readable(TextStep(s, m).definition.schedule)
  {
    match s.stage
    case WaitingScheduleTime => TimeKeepsReadable(s.draft, Strip(m.text));
    case WaitingScheduleDay => DayKeepsReadable(s.draft, Strip(m.text));
    case _ =>
  }

  lemma ButtonKeepsReadable(s: Session, p: string)
    requires Schedulable(s)
    ensures ScheduleButtonStep(s, p).Move? ==> Schedulable(ScheduleButtonStep(s, p).next)
    ensures ScheduleButtonStep(s, p).Finish? ==> Readable(ScheduleButtonStep(s, p).definition.schedule)
  {
    assert Readable(Some(DailySkeleton)) && Readable(Some(WeeklySkeleton));
  }

  lemma TimeKeepsReadable(d: Definition, t: string)
    requires d.schedule.Some? && "type" in d.schedule.value && Readable(d.schedule)
    ensures TimeEntered(d, t).Move? ==> Schedulable(TimeEntered(d, t).next)
    ensures TimeEntered(d, t).Finish? ==> Readable(TimeEntered(d, t).definition.schedule)
  {
    var m := d.schedule.value["time" := t];
    assert Readable(Some(m)) && "type" in m;
  }

  lemma DayKeepsReadable(d: Definition, day: string)
    requires d.schedule.Some? && "type" in d.schedule.value && Readable(d.schedule)
    ensures DayEntered(d, day).Finish? ==> Readable(DayEntered(d, day).definition.schedule)
  {
    var m := d.schedule.value["day" := day];
    assert Readable(Some(m));
  }

  /** A whole conversation keeps the draft schedule readable and stores only a readable schedule. */
  lemma {:induction false} RunKeepsReadable(s: Session, es: seq<Event>)
    requires Schedulable(s)
    ensures Run(s, es).Move? ==> Schedulable(Run(s, es).next)
    ensures Run(s, es).Finish? ==> Readable(Run(s, es).definition.schedule)
    decreases es
  {
    if es != [] {
      StepKeepsReadable(s, es[0]);
      match Step(s, es[0])
      case Stay => RunKeepsReadable(s, es[1..]);
      case Move(n) => RunKeepsReadable(n, es[1..]);
      case Finish(_) =>
    }
  }

  /**
   * A definition the wizard stores, from a fresh `/add_message` session
   * onward, never makes the scheduler's test raise a KeyError, at any
   * minute and weekday.
   */
  lemma WizardDefinitionsSchedulable(es: seq<Event>, now: string, today: string)
    ensures var r := Run(Session(WaitingText, NewDraft), es);
            r.Finish? ==> Readable(r.definition.schedule) && CheckSchedule(r.definition.schedule, now, today) != KeyMissing
  {
    RunKeepsReadable(Session(WaitingText, NewDraft), es);
    var r := Run(Session(WaitingText, NewDraft), es);
    if r.Finish? {
      ReadableNeverKeyMissing(r.definition.schedule);
    }
  }
}
