/** internal/webhook's Build: a parsed event becomes at most one notification, under a dedupe key. */
module Webhook {
  import opened Base
  import opened Text
  import opened Store
  import opened Notify
  import Civil

  /** A moment with the offset its clock showed, both in seconds. */
  datatype Instant = Instant(unix: int, offset: int) {
    function Day(): int {
      (unix + offset) / 86400
    }
  }

  datatype Task = Task(id: int, title: string, identifier: string)

  datatype Event =
    | ReminderFired(task: Task, user: int, reminder: Instant)
    | TaskOverdue(task: Task, user: int, time: Instant)
    | TasksOverdue(tasks: seq<Task>, user: int, time: Instant)

  // ---- Dedupe keys ----

  /** What a dedupe key stands for: the family, the id it is about, and the second or the day. */
  datatype Fingerprint =
    | Reminder(task: int, unix: int)
    | Overdue(task: int, day: int)
    | OverdueBatch(user: int, day: int)
    | Digest(user: int, day: int)

  function Family(f: Fingerprint): string {
    match f
    case Reminder(_, _) => "reminder"
    case Overdue(_, _) => "overdue"
    case OverdueBatch(_, _) => "overdue-batch"
    case Digest(_, _) => "digest"
  }

  function Subject(f: Fingerprint): int {
    match f
    case Reminder(task, _) => task
    case Overdue(task, _) => task
    case OverdueBatch(user, _) => user
    case Digest(user, _) => user
  }

  function When(f: Fingerprint): string {
    match f
    case Reminder(_, unix) => Decimal(unix)
    case Overdue(_, day) => Civil.DayText(day)
    case OverdueBatch(_, day) => Civil.DayText(day)
    case Digest(_, day) => Civil.DayText(day)
  }

  function Key(f: Fingerprint): string {
    Family(f) + ":" + (Decimal(Subject(f)) + ":" + When(f))
  }

  /** A key can be taken apart again at its first two colons. */
  lemma KeyParts(f: Fingerprint, g: Fingerprint)
    requires Key(f) == Key(g)
    ensures Family(f) == Family(g) && Subject(f) == Subject(g) && When(f) == When(g)
  {
    hide When, Subject;
    SplitAtFirst(Family(f), Decimal(Subject(f)) + ":" + When(f),
                 Family(g), Decimal(Subject(g)) + ":" + When(g), ':');
    DecimalHasNo(Subject(f), ':');
    DecimalHasNo(Subject(g), ':');
    SplitAtFirst(Decimal(Subject(f)), When(f), Decimal(Subject(g)), When(g), ':');
    DecimalInjective(Subject(f), Subject(g));
  }

  /** Two keys are equal exactly when they stand for the same thing: families never collide, and within
      a family the id and the second or day can be read back. */
  lemma KeyFaithful(f: Fingerprint, g: Fingerprint)
    ensures Key(f) == Key(g) <==> f == g
  {
    hide Key;
    if Key(f) == Key(g) {
      KeyParts(f, g);
      SameFamily(f, g);
      if f.Reminder? {
        DecimalInjective(f.unix, g.unix);
      } else {
        Civil.DayTextInjective(f.day, g.day);
      }
    }
  }

  lemma SameFamily(f: Fingerprint, g: Fingerprint)
    requires Family(f) == Family(g)
    ensures f.Reminder? == g.Reminder? && f.Overdue? == g.Overdue?
    ensures f.OverdueBatch? == g.OverdueBatch? && f.Digest? == g.Digest?
  {
    assert Family(f)[0] == Family(g)[0] && |Family(f)| == |Family(g)|;
  }

  lemma KnownDate()
    ensures Civil.DayText(20694) == "2026-08-29"
  {
    hide Civil.OfDay, Digits;
    var date := Civil.Date(2026, 8, 29);
    Civil.DateOfNumber(date);
    assert Civil.Number(date) == 20694;
    KnownDigits();
    assert Civil.PrintYear(2026) == "2026";
    assert Zeros(1) == "0" && Padded(8, 2) == "08" && Padded(29, 2) == "29";
  }

  lemma KnownDigits()
    ensures Digits(8) == "8" && Digits(29) == "29" && Digits(2026) == "2026"
  {
    assert Digits(2) == "2";
    assert Digits(20) == "20";
    assert Digits(202) == "202";
  }

  lemma KnownNumbers()
    ensures Decimal(1) == "1" && Decimal(3) == "3" && Decimal(5) == "5" && Decimal(7) == "7" && Decimal(9) == "9"
    ensures Decimal(12) == "12" && Decimal(1756468800) == "1756468800"
  {
    assert Digits(1) == "1";
    assert Digits(17) == "17";
    assert Digits(175) == "175";
    assert Digits(1756) == "1756";
    assert Digits(17564) == "17564";
    assert Digits(175646) == "175646";
    assert Digits(1756468) == "1756468";
    assert Digits(17564688) == "17564688";
    assert Digits(175646880) == "175646880";
  }

  lemma KnownBatchKey()
    ensures Key(OverdueBatch(7, 20694)) == "overdue-batch:7:2026-08-29"
  {
    hide Civil.DayText, Decimal;
    KnownDate();
    KnownNumbers();
    assert "7" + ":" + "2026-08-29" == "7:2026-08-29";
  }

  lemma KnownDigestKey()
    ensures Key(Digest(1, 20694)) == "digest:1:2026-08-29"
  {
    hide Civil.DayText, Decimal;
    KnownDate();
    KnownNumbers();
    assert "1" + ":" + "2026-08-29" == "1:2026-08-29";
  }

  lemma KnownOverdueKey()
    ensures Key(Overdue(12, 20694)) == "overdue:12:2026-08-29"
  {
    hide Civil.DayText, Decimal;
    KnownDate();
    KnownNumbers();
    assert "12" + ":" + "2026-08-29" == "12:2026-08-29";
  }

  lemma KnownReminderKey()
    ensures Key(Reminder(12, 1756468800)) == "reminder:12:1756468800"
  {
    hide Civil.DayText, Decimal;
    KnownNumbers();
    assert "12" + ":" + "1756468800" == "12:1756468800";
  }

  /** The layout of the keys, on numbers and a date the repository's own examples use. */
  lemma KnownKeys()
    ensures Key(OverdueBatch(7, 20694)) == "overdue-batch:7:2026-08-29"
    ensures Key(Digest(1, 20694)) == "digest:1:2026-08-29"
    ensures Key(Overdue(12, 20694)) == "overdue:12:2026-08-29"
    ensures Key(Reminder(12, 1756468800)) == "reminder:12:1756468800"
  {
    hide Key;
    KnownBatchKey();
    KnownDigestKey();
    KnownOverdueKey();
    KnownReminderKey();
  }

  // ---- Build ----

  function TaskLabel(t: Task): string {
    if t.title != "" then t.title
    else if t.identifier != "" then t.identifier
    else "Task " + Decimal(t.id)
  }

  function TaskLink(id: int): string {
    "task/" + Decimal(id)
  }

  function BuildReminder(task: Task, reminder: Instant): seq<Notification> {
    [Notification(TaskLabel(task), "Reminder", TaskLink(task.id), Unset, Key(Reminder(task.id, reminder.unix)))]
  }

  function BuildTaskOverdue(task: Task, at: Instant): seq<Notification> {
    [Notification(TaskLabel(task), "Overdue", TaskLink(task.id), Warning, Key(Overdue(task.id, at.Day())))]
  }

  function BuildTasksOverdue(tasks: seq<Task>, user: int, at: Instant): seq<Notification> {
    var n := |tasks|;
    var key := Key(OverdueBatch(user, at.Day()));
    if n == 0 then []
    else if n == 1 then [Notification(TaskLabel(tasks[0]), "Overdue", TaskLink(tasks[0].id), Warning, key)]
    else [Notification("Overdue tasks", "You have " + Decimal(n) + " overdue tasks", "today", Warning, key)]
  }

  function Build(ev: Event): seq<Notification> {
    match ev
    case ReminderFired(task, _, reminder) => BuildReminder(task, reminder)
    case TaskOverdue(task, _, time) => BuildTaskOverdue(task, time)
    case TasksOverdue(tasks, user, time) => BuildTasksOverdue(tasks, user, time)
  }

  /** The logical event behind a webhook event, if it warrants a push. */
  function PrintOf(ev: Event): Option<Fingerprint> {
    match ev
    case ReminderFired(task, _, reminder) => Some(Reminder(task.id, reminder.unix))
    case TaskOverdue(task, _, time) => Some(Overdue(task.id, time.Day()))
    case TasksOverdue(tasks, user, time) => if tasks == [] then None else Some(OverdueBatch(user, time.Day()))
  }

  /** Build yields at most one notification, always under a non-empty key, which names the logical event
      and is never a digest's. */
  lemma BuildIsKeyed(ev: Event)
    ensures Build(ev) == [] <==> PrintOf(ev) == None
    ensures PrintOf(ev) != None ==> |Build(ev)| == 1 && Build(ev)[0].dedupeKey == Key(PrintOf(ev).value)
    ensures Keyed(Build(ev))
    ensures forall user, day :: PrintOf(ev) != Some(Digest(user, day))
  {
  }

  /** The date in an overdue key is the one the time's own clock shows, whatever its offset; a reminder's key
      holds the second itself, the same at every offset. */
  lemma KeysHoldLocalDates(task: Task, tasks: seq<Task>, user: int, at: Instant, d: int)
    ensures Build(TaskOverdue(task, user, at))[0].dedupeKey == Key(Overdue(task.id, d))
       <==> d * 86400 <= at.unix + at.offset < (d + 1) * 86400
    ensures tasks != [] ==>
              (Build(TasksOverdue(tasks, user, at))[0].dedupeKey == Key(OverdueBatch(user, d))
               <==> d * 86400 <= at.unix + at.offset < (d + 1) * 86400)
    ensures Build(ReminderFired(task, user, at))[0].dedupeKey == Key(Reminder(task.id, d)) <==> d == at.unix
  {
    hide Key, Digits, TaskLabel;
    KeyFaithful(Overdue(task.id, at.Day()), Overdue(task.id, d));
    KeyFaithful(OverdueBatch(user, at.Day()), OverdueBatch(user, d));
    KeyFaithful(Reminder(task.id, at.unix), Reminder(task.id, d));
  }

  /** Two events push at most once between them exactly when they are the same logical event: same kind, and
      same task and second, same task and local date, or same user and local date. Reminder and overdue pushes
      so collapse across recipients of one task, batch pushes are per user. d and e are the local dates. */
  lemma SameDropExactly(a: Event, b: Event, d: int, e: int)
    requires Build(a) != [] && Build(b) != []
    requires !a.ReminderFired? ==> d * 86400 <= a.time.unix + a.time.offset < (d + 1) * 86400
    requires !b.ReminderFired? ==> e * 86400 <= b.time.unix + b.time.offset < (e + 1) * 86400
    ensures Build(a)[0].dedupeKey == Build(b)[0].dedupeKey <==>
            match a
            case ReminderFired(task, _, reminder) =>
              b.ReminderFired? && b.task.id == task.id && b.reminder.unix == reminder.unix
            case TaskOverdue(task, _, _) => b.TaskOverdue? && b.task.id == task.id && d == e
            case TasksOverdue(_, user, _) => b.TasksOverdue? && b.user == user && d == e
  {
    hide Key, Digits, TaskLabel, Family;
    BuildIsKeyed(a);
    BuildIsKeyed(b);
    KeyFaithful(PrintOf(a).value, PrintOf(b).value);
  }

  /** The key of an event late on a local evening, when it is already the next day in UTC. */
  lemma LocalEveningKey(title: string, identifier: string)
    ensures Build(TaskOverdue(Task(12, title, identifier), 7, Instant(1788064200, -18000)))[0].dedupeKey
         == "overdue:12:2026-08-29"
  {
    hide Civil.DayText, TaskLabel;
    KeysHoldLocalDates(Task(12, title, identifier), [], 7, Instant(1788064200, -18000), 20694);
    KnownKeys();
  }

  // ---- What the pushes say ----

  /** A link names its task. */
  lemma LinkNamesTask(a: int, b: int)
    ensures TaskLink(a) == TaskLink(b) <==> a == b
  {
    if TaskLink(a) == TaskLink(b) {
      assert Decimal(a) == TaskLink(a)[5..] == TaskLink(b)[5..] == Decimal(b);
      DecimalInjective(a, b);
    }
  }

  function BatchBody(n: int): string {
    "You have " + Decimal(n) + " overdue tasks"
  }

  lemma BatchBodyTells(m: int, n: int)
    ensures BatchBody(m) == BatchBody(n) <==> m == n
  {
    hide Decimal;
    var x, y := BatchBody(m), BatchBody(n);
    if x == y {
      assert x[9..] == Decimal(m) + [' '] + "overdue tasks";
      assert y[9..] == Decimal(n) + [' '] + "overdue tasks";
      DecimalHasNo(m, ' ');
      DecimalHasNo(n, ' ');
      SplitAtFirst(Decimal(m), "overdue tasks", Decimal(n), "overdue tasks", ' ');
      DecimalInjective(m, n);
    }
  }

  /** The body of a batch tells its count. */
  lemma BatchTellsCount(tasks: seq<Task>, others: seq<Task>, user: int, at: Instant)
    requires |tasks| >= 2 && |others| >= 2
    ensures Build(TasksOverdue(tasks, user, at))[0].body == Build(TasksOverdue(others, user, at))[0].body
       <==> |tasks| == |others|
  {
    hide Key, Decimal;
    BatchBodyTells(|tasks|, |others|);
  }

  /** The texts of the repository's own examples: a reminder, an overdue task, batches of three and of one, and
      the labels of tasks without a title. */
  lemma KnownPushes(a: Task, b: Task, c: Task)
    ensures Build(ReminderFired(Task(12, "Buy milk", "HOME-12"), 1, Instant(1756468800, 7200)))
         == [Notification("Buy milk", "Reminder", "task/12", Unset, "reminder:12:1756468800")]
    ensures Build(TaskOverdue(Task(12, "x", ""), 1, Instant(20694 * 86400, 0)))
         == [Notification("x", "Overdue", "task/12", Warning, "overdue:12:2026-08-29")]
    ensures Build(TasksOverdue([a, b, c], 7, Instant(20694 * 86400, 0)))
         == [Notification("Overdue tasks", "You have 3 overdue tasks", "today", Warning, "overdue-batch:7:2026-08-29")]
    ensures Build(TasksOverdue([Task(9, "Solo", "")], 7, Instant(20694 * 86400, 0)))
         == [Notification("Solo", "Overdue", "task/9", Warning, "overdue-batch:7:2026-08-29")]
    ensures TaskLabel(Task(5, "", "HOME-5")) == "HOME-5" && TaskLabel(Task(5, "", "")) == "Task 5"
  {
    hide Key, Decimal;
    KnownKeys();
    KnownNumbers();
    var midnight := Instant(20694 * 86400, 0);
    assert midnight.Day() == 20694;
    assert "task/" + "12" == "task/12" && "task/" + "9" == "task/9" && "Task " + "5" == "Task 5";
    assert "You have " + "3" + " overdue tasks" == "You have 3 overdue tasks";
  }

  // ---- Redelivery ----

  /** Deliveries handled one after another: each event is built and dispatched against the same table. */
  function DeliverEvents(sent: SentTable, evs: seq<Event>, at: int): Delivery {
    if evs == [] then Begin(sent)
    else
      var last := |evs| - 1;
      var before := DeliverEvents(sent, evs[..last], at);
      var d := DispatchAll(Begin(before.sent), Smooth(Build(evs[last]), at));
      Delivery(d.sent, before.sends + d.sends, before.failed || d.failed)
  }

  function BuildAll(evs: seq<Event>): seq<Notification> {
    if evs == [] then [] else BuildAll(evs[..|evs| - 1]) + Build(evs[|evs| - 1])
  }

  function KeysOfPrint(f: Option<Fingerprint>): set<string> {
    if f == None then {} else {Key(f.value)}
  }

  /** The keys of all logical events among evs. */
  function KeysIn(evs: seq<Event>): set<string> {
    set ev, key | ev in evs && key in KeysOfPrint(PrintOf(ev)) :: key
  }

  ghost predicate AsOneBatch(sent: SentTable, evs: seq<Event>, d: Delivery) {
    && !d.failed
    && d.sends == FirstOccurrences(sent.Keys, BuildAll(evs))
    && d.sent.Keys == sent.Keys + KeysOf(BuildAll(evs))
  }

  /** One event more: its notifications are dispatched on top. */
  lemma OneEventMore(sent: SentTable, evs: seq<Event>, at: int)
    requires evs != []
    requires AsOneBatch(sent, evs[..|evs| - 1], DeliverEvents(sent, evs[..|evs| - 1], at))
    ensures AsOneBatch(sent, evs, DeliverEvents(sent, evs, at))
  {
    hide Build, KeysOf, FirstOccurrences, DispatchAll;
    var last := |evs| - 1;
    var a, b := BuildAll(evs[..last]), Build(evs[last]);
    DispatchIsFilter(DeliverEvents(sent, evs[..last], at).sent, b, at);
    FilterConcat(sent.Keys, a, b);
    KeysOfConcat(a, b);
  }

  /** Handling events one by one is dispatching all their notifications as one batch. */
  lemma {:induction false} EventsAsOneBatch(sent: SentTable, evs: seq<Event>, at: int)
    ensures AsOneBatch(sent, evs, DeliverEvents(sent, evs, at))
  {
    if evs != [] {
      EventsAsOneBatch(sent, evs[..|evs| - 1], at);
      OneEventMore(sent, evs, at);
    }
  }

  lemma KeysOfBuild(ev: Event)
    ensures KeysOf(Build(ev)) == KeysOfPrint(PrintOf(ev))
  {
    BuildIsKeyed(ev);
    if Build(ev) != [] {
      assert Build(ev)[0].dedupeKey in KeysOf(Build(ev));
    }
  }

  lemma {:induction false} BuildAllIsKeyed(evs: seq<Event>)
    ensures Keyed(BuildAll(evs))
  {
    if evs != [] {
      BuildAllIsKeyed(evs[..|evs| - 1]);
      BuildIsKeyed(evs[|evs| - 1]);
    }
  }

  lemma KeysOfBuildSnoc(ns: seq<Notification>, ev: Event)
    ensures KeysOf(ns + Build(ev)) == KeysOf(ns) + KeysOfPrint(PrintOf(ev))
  {
    var b := Build(ev);
    KeysOfBuild(ev);
    KeysOfConcat(ns, b);
  }

  lemma {:induction false} KeysOfBuildAll(evs: seq<Event>)
    ensures KeysOf(BuildAll(evs)) == KeysIn(evs)
  {
    hide Build, PrintOf, Key;
    if evs == [] {
      assert KeysIn(evs) == {} == KeysOf([]);
    } else {
      hide KeysIn, KeysOf;
      var init, ev := evs[..|evs| - 1], evs[|evs| - 1];
      KeysOfBuildAll(init);
      KeysOfBuildSnoc(BuildAll(init), ev);
      KeysInSnoc(init, ev);
      assert evs == init + [ev];
    }
  }

  lemma KeysInSnoc(evs: seq<Event>, ev: Event)
    ensures KeysIn(evs + [ev]) == KeysIn(evs) + KeysOfPrint(PrintOf(ev))
  {
    forall key | key in KeysIn(evs) ensures key in KeysIn(evs + [ev]) {
      var e :| e in evs && key in KeysOfPrint(PrintOf(e));
      assert e in evs + [ev];
    }
    forall key | key in KeysOfPrint(PrintOf(ev)) ensures key in KeysIn(evs + [ev]) {
      assert ev in evs + [ev];
    }
  }

  lemma {:induction false} FirstOccurrencesAreDistinct(seen: set<string>, ns: seq<Notification>, key: string)
    requires key != ""
    ensures TimesSent(FirstOccurrences(seen, ns), key) == if key in KeysOf(ns) && key !in seen then 1 else 0
  {
    hide IsFirst;
    if ns != [] {
      hide KeysOf;
      var last := |ns| - 1;
      FirstOccurrencesAreDistinct(seen, ns[..last], key);
      var before := FirstOccurrences(seen, ns[..last]);
      assert (before + [ns[last]])[..|before|] == before && before + [] == before;
      KeysOfLast(ns);
      FirstIsNew(seen, ns);
    }
  }

  /** Redelivery is harmless: however events are reordered and repeated, every logical event among them
      that was not already recorded is sent exactly once, and nothing else is sent. */
  lemma RedeliveryIsHarmless(sent: SentTable, evs: seq<Event>, at: int, key: string)
    ensures key != "" ==>
              TimesSent(DeliverEvents(sent, evs, at).sends, key) == if key in KeysIn(evs) && key !in sent then 1 else 0
    ensures forall n :: n in DeliverEvents(sent, evs, at).sends ==> n.dedupeKey in KeysIn(evs) && n.dedupeKey !in sent
  {
    EventsAsOneBatch(sent, evs, at);
    KeysOfBuildAll(evs);
    BuildAllIsKeyed(evs);
    NeverSeen(sent.Keys, BuildAll(evs));
    FilterKeeps(sent.Keys, BuildAll(evs));
    if key != "" {
      FirstOccurrencesAreDistinct(sent.Keys, BuildAll(evs), key);
    }
  }

  /** In particular two streams with the same logical events send the same keys equally often. */
  lemma ReorderingAndRepetition(sent: SentTable, evs: seq<Event>, evs': seq<Event>, at: int, key: string)
    requires key != ""
    requires forall ev :: ev in evs <==> ev in evs'
    ensures TimesSent(DeliverEvents(sent, evs, at).sends, key) == TimesSent(DeliverEvents(sent, evs', at).sends, key)
  {
    RedeliveryIsHarmless(sent, evs, at, key);
    RedeliveryIsHarmless(sent, evs', at, key);
    assert KeysIn(evs) == KeysIn(evs');
  }
}
