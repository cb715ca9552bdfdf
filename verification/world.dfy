/** The delivery engine as one state machine: digest ticks, webhook deliveries, settings requests and
    pruning, each one action, in any order and number. A crash between actions loses nothing, since
    everything an action leaves behind is in the tables. */
module Engine {
  import opened Base
  import opened Store
  import opened Notify
  import opened Cron
  import opened UserSettings
  import Webhook
  import Digest

  /** A Send call: when it was decided, for whom, and what. */
  datatype Post = Post(at: int, user: int, n: Notification)

  /** A task query a tick made for a local day, and whether it was answered. */
  datatype Fetch = Fetch(day: int, obtained: bool)

  datatype World = World(sent: SentTable, settings: SettingsTable, posts: seq<Post>, fetches: seq<Fetch>)

  /** Put is a request to the settings handler; Write is a settings statement made past it. */
  datatype Action =
    | Tick(env: TickEnv)
    | Deliver(user: int, ev: Webhook.Event, mark: Response)
    | Put(user: int, req: Request, save: Fault, upstream: Option<string>, cache: Fault)
    | Write(write: UserSettings.Write, fault: Fault)
    | Prune(now: int, days: int)

  /** The local day a tick finds due, if any. */
  function DueDay(me: int, w: World, env: TickEnv): Option<int> {
    if env.settingsFail then None
    else
      match Decide(SettingsOf(w.settings, me), env)
      case Skip(_) => None
      case Due(day) => Some(day)
  }

  function Posted(at: int, user: int, ns: seq<Notification>): seq<Post> {
    seq(|ns|, i requires 0 <= i < |ns| => Post(at, user, ns[i]))
  }

  /** me is the user the cron acts for; precheck is true in the code. */
  function Step(me: int, precheck: bool, w: World, a: Action): World {
    match a
    case Tick(env) =>
      var e := Evaluate(me, w.sent, w.settings, env, precheck);
      var due := DueDay(me, w, env);
      World(e.sent, SettingsAfter(me, w.settings, env), w.posts + Posted(env.now, me, e.sends),
            w.fetches + if due.Some? && e.asked then [Fetch(due.value, env.tasks.Some?)] else [])
    case Deliver(user, ev, mark) =>
      var d := DispatchAll(Begin(w.sent), Batch(Webhook.Build(ev), mark));
      w.(sent := d.sent, posts := w.posts + Posted(mark.at * SECOND, user, d.sends))
    case Put(user, req, save, upstream, cache) =>
      w.(settings := ApplyAll(w.settings, PutWrites(user, req, save, upstream, cache)))
    case Write(write, fault) =>
      w.(settings := ApplyAll(w.settings, IfApplied(write, fault)))
    case Prune(now, days) =>
      w.(sent := Pruned(w.sent, now, days))
  }

  function Run(me: int, precheck: bool, w: World, actions: seq<Action>): World
    decreases |actions|
  {
    if actions == [] then w else Run(me, precheck, Step(me, precheck, w, actions[0]), actions[1..])
  }

  lemma RunNothing(me: int, precheck: bool, w: World)
    ensures Run(me, precheck, w, []) == w
  {
  }

  lemma RunCons(me: int, precheck: bool, w: World, a: Action, rest: seq<Action>)
    ensures Run(me, precheck, w, [a] + rest) == Run(me, precheck, Step(me, precheck, w, a), rest)
  {
    assert ([a] + rest)[1..] == rest;
  }

  function Notifications(posts: seq<Post>): seq<Notification> {
    seq(|posts|, i requires 0 <= i < |posts| => posts[i].n)
  }

  function TimesPosted(posts: seq<Post>, key: string): nat {
    TimesSent(Notifications(posts), key)
  }

  lemma OnePostMore(posts: seq<Post>, p: Post, key: string)
    ensures TimesPosted(posts + [p], key) == TimesPosted(posts, key) + if p.n.dedupeKey == key then 1 else 0
  {
    assert Notifications(posts + [p]) == Notifications(posts) + [p.n];
    OneSendMore(Notifications(posts), p.n, key);
  }

  // ---- The cron's loop is a run ----

  function Ticks(envs: seq<TickEnv>): seq<Action> {
    seq(|envs|, i requires 0 <= i < |envs| => Tick(envs[i]))
  }

  function Recipients(posts: seq<Post>): seq<(int, Notification)> {
    seq(|posts|, i requires 0 <= i < |posts| => (posts[i].user, posts[i].n))
  }

  /** The cron's tables and sends are those of the engine. */
  predicate SameAs(w: World, st: CronState) {
    w.sent == st.sent && w.settings == st.settings && Recipients(w.posts) == st.posts
  }

  lemma {:induction false} RunConcat(me: int, precheck: bool, w: World, a: seq<Action>, b: seq<Action>)
    ensures Run(me, precheck, w, a + b) == Run(me, precheck, Run(me, precheck, w, a), b)
    decreases |a|
  {
    hide Step;
    if a == [] {
      assert a + b == b;
    } else {
      assert (a + b)[1..] == a[1..] + b;
      RunConcat(me, precheck, Step(me, precheck, w, a[0]), a[1..], b);
    }
  }

  lemma TickIsStep(me: int, w: World, st: CronState, env: TickEnv)
    requires SameAs(w, st)
    ensures SameAs(Step(me, true, w, Tick(env)), Ticked(me, st, env))
  {
    hide Evaluate, SettingsAfter, DueDay;
    var sends := Evaluate(me, st.sent, st.settings, env, true).sends;
    assert Recipients(w.posts + Posted(env.now, me, sends)) == Recipients(w.posts) + To(me, sends);
  }

  /** What Runner.Run leaves behind is what the engine's run of the same ticks does, one after another in order:
      the laws about runs hold of the loop. */
  lemma {:induction false} CronLoopIsRun(me: int, w: World, st: CronState, envs: seq<TickEnv>)
    requires SameAs(w, st)
    ensures SameAs(Run(me, true, w, Ticks(envs)), AllTicked(me, st, envs))
  {
    hide Step, Ticked, SameAs;
    if envs == [] {
      RunNothing(me, true, w);
    } else {
      var init, last := envs[..|envs| - 1], envs[|envs| - 1];
      CronLoopIsRun(me, w, st, init);
      var w' := Run(me, true, w, Ticks(init));
      TickIsStep(me, w', AllTicked(me, st, init), last);
      assert Ticks(envs) == Ticks(init) + [Tick(last)];
      RunConcat(me, true, w, Ticks(init), [Tick(last)]);
      RunCons(me, true, w', Tick(last), []);
      RunNothing(me, true, Step(me, true, w', Tick(last)));
      assert [Tick(last)] + [] == [Tick(last)];
    }
  }

  /** Whatever an action sends goes to its own user: a tick's digest to the cron's, a delivery's push to the one
      the delivery is for. */
  lemma NewPostsAreForTheUser(me: int, w: World, a: Action, i: nat)
    requires |w.posts| <= i < |Step(me, true, w, a).posts|
    ensures (a.Tick? || a.Deliver?) && Step(me, true, w, a).posts[i].user == if a.Tick? then me else a.user
  {
    hide Evaluate, Webhook.Build, DispatchAll;
  }

  /** How a tick on a due day ends, statement by statement. */
  lemma OutcomeExactly(me: int, w: World, env: TickEnv, day: int)
    requires DueDay(me, w, env) == Some(day)
    ensures Evaluate(me, w.sent, w.settings, env, true).outcome ==
            if env.checkFails then CheckFailed
            else if DigestKey(me, day) in w.sent then AlreadySent
            else if env.tasks.None? then FetchFailed
            else if env.tasks.value != [] && env.mark.fault != Works then DispatchFailed
            else if env.finalMark.fault != Works then FinalMarkFailed
            else Evaluated
  {
    hide Decide;
    if !env.checkFails && DigestKey(me, day) !in w.sent && env.tasks.Some? {
      KeyIsNonEmpty(me, day);
      DispatchAtMostOne(w.sent, Digest.Briefing(env.tasks.value, DigestKey(me, day)), env.mark);
    }
  }

  /** What a delivery leaves behind: nothing new for a recorded key; a new key's row and its one send to the user;
      and after a failing mark no send, with or without the row. */
  lemma DeliveryExactly(me: int, w: World, user: int, ev: Webhook.Event, mark: Response)
    ensures var w', ns := Step(me, true, w, Deliver(user, ev, mark)), Webhook.Build(ev);
            && w'.settings == w.settings && w'.fetches == w.fetches
            && if ns == [] then w' == w
               else if mark.fault != Works then
                 w'.posts == w.posts && w'.sent == Marked(w.sent, ns[0].dedupeKey, mark)
               else if ns[0].dedupeKey in w.sent then w' == w
               else
                 && w'.sent == w.sent[ns[0].dedupeKey := mark.at]
                 && w'.posts == w.posts + [Post(mark.at * 1_000_000_000, user, ns[0])]
  {
    hide DispatchAll, Webhook.Build;
    var ns := Webhook.Build(ev);
    Webhook.BuildIsKeyed(ev);
    assert |ns| <= 1;
    DispatchAtMostOne(w.sent, ns, mark);
    assert Posted(mark.at * SECOND, user, []) == [] && w.posts + [] == w.posts;
    if ns != [] {
      assert Posted(mark.at * SECOND, user, ns) == [Post(mark.at * SECOND, user, ns[0])];
    }
  }

  /** A statement past the handler changes the one field it writes, if it takes effect, and no other user. */
  lemma WriteExactly(me: int, w: World, write: UserSettings.Write, fault: Fault, user: int)
    ensures var w' := Step(me, true, w, Action.Write(write, fault));
            var before, after := SettingsOf(w.settings, user), SettingsOf(w'.settings, user);
            && w'.sent == w.sent && w'.posts == w.posts && w'.fetches == w.fetches
            && after == if fault == FailsUnapplied || user != write.user then before
                        else if write.ZoneWrite? then before.(timezone := write.tz)
                        else before.(digestEnabled := write.enabled, digestTime := write.hhmm)
  {
    hide ApplyAll;
    ApplyFew(w.settings, write, write);
  }

  /** Vikunja is asked for tasks exactly on a due day not yet recorded. */
  lemma AsksExactly(me: int, w: World, env: TickEnv)
    ensures Evaluate(me, w.sent, w.settings, env, true).asked <==>
            var due := DueDay(me, w, env);
            due.Some? && !env.checkFails && DigestKey(me, due.value) !in w.sent
  {
    hide Decide;
  }

  // ---- What one action does ----

  /** The notification a tick sends: on a due day, when tasks are obtained and there are some, unless
      the day's key is already recorded or a store statement fails first. */
  function TickSends(me: int, precheck: bool, w: World, env: TickEnv): seq<Notification> {
    match DueDay(me, w, env)
    case None => []
    case Some(day) =>
      var key := DigestKey(me, day);
      if (precheck && env.checkFails) || env.tasks.None? || env.mark.fault != Works || key in w.sent then []
      else Digest.Briefing(env.tasks.value, key)
  }

  /** Whether a tick records its day: it must get as far as obtaining the tasks, and then some insert
      of the key takes effect. */
  predicate TickRecords(me: int, precheck: bool, w: World, env: TickEnv) {
    && DueDay(me, w, env).Some?
    && !(precheck && env.checkFails) && env.tasks.Some?
    && (if env.tasks.value != [] then env.mark else env.finalMark).fault != FailsUnapplied
  }

  lemma KeyIsNonEmpty(me: int, day: int)
    ensures DigestKey(me, day) != ""
  {
    assert |Webhook.Family(Webhook.Digest(me, day))| == 6;
  }

  lemma TickUnfolds(me: int, precheck: bool, w: World, env: TickEnv)
    ensures var w' := Step(me, precheck, w, Tick(env));
            var sends := TickSends(me, precheck, w, env);
            && w'.posts == w.posts + Posted(env.now, me, sends)
            && match DueDay(me, w, env)
               case None => w'.sent == w.sent && w'.fetches == w.fetches
               case Some(day) =>
                 var key := DigestKey(me, day);
                 && (key in w.sent ==> w'.sent == w.sent)
                 && (key !in w.sent && !TickRecords(me, precheck, w, env) ==> w'.sent == w.sent)
                 && (key !in w.sent && TickRecords(me, precheck, w, env) ==>
                       w'.sent == w.sent[key := env.mark.at] || w'.sent == w.sent[key := env.finalMark.at])
  {
    match DueDay(me, w, env)
    case None =>
    case Some(day) =>
      var key := DigestKey(me, day);
      KeyIsNonEmpty(me, day);
      if env.tasks.Some? && !(precheck && (env.checkFails || key in w.sent)) {
        ServeUnfolds(w.sent, key, env, precheck);
      }
  }

  lemma DigestKeysDiffer(me: int, day: int, day': int)
    ensures DigestKey(me, day) == DigestKey(me, day') <==> day == day'
  {
    Webhook.KeyFaithful(Webhook.Digest(me, day), Webhook.Digest(me, day'));
  }

  /** What a tick does to the key of one day. */
  lemma TickOnDay(me: int, precheck: bool, w: World, env: TickEnv, day: int)
    ensures var w' := Step(me, precheck, w, Tick(env));
            var key := DigestKey(me, day);
            if DueDay(me, w, env) == Some(day) then
              && TimesPosted(w'.posts, key) == TimesPosted(w.posts, key) + |TickSends(me, precheck, w, env)|
              && |TickSends(me, precheck, w, env)| <= 1
              && (key in w'.sent <==> key in w.sent || TickRecords(me, precheck, w, env))
              && (key in w.sent ==> w'.sent == w.sent)
              && (key !in w.sent && key in w'.sent ==> w'.sent[key] in {env.mark.at, env.finalMark.at})
            else
              && TimesPosted(w'.posts, key) == TimesPosted(w.posts, key)
              && (key in w'.sent <==> key in w.sent)
              && (key in w.sent ==> w'.sent[key] == w.sent[key])
  {
    TickUnfolds(me, precheck, w, env);
    var due := DueDay(me, w, env);
    var sends := TickSends(me, precheck, w, env);
    var w' := Step(me, precheck, w, Tick(env));
    if due.Some? {
      DigestKeysDiffer(me, day, due.value);
    }
    if sends == [] {
      assert w'.posts == w.posts;
    } else {
      var p := Post(env.now, me, sends[0]);
      assert Posted(env.now, me, sends) == [p] && p.n.dedupeKey == DigestKey(me, due.value);
      OnePostMore(w.posts, p, DigestKey(me, day));
    }
  }

  /** Deliveries, settings writes and pruning never send a digest or record its key; only pruning drops it. */
  lemma OthersOnDay(me: int, precheck: bool, w: World, a: Action, day: int)
    requires !a.Tick?
    ensures var w' := Step(me, precheck, w, a);
            var key := DigestKey(me, day);
            && TimesPosted(w'.posts, key) == TimesPosted(w.posts, key)
            && w'.fetches == w.fetches
            && (key in w'.sent ==> key in w.sent && w'.sent[key] == w.sent[key])
            && (key in w.sent && key !in w'.sent ==>
                  a.Prune? && a.days >= 0 && w.sent[key] < a.now - a.days * 86400)
  {
    if a.Deliver? {
      DeliveryOnDay(me, precheck, w, a, day);
    }
  }

  lemma DeliveryOnDay(me: int, precheck: bool, w: World, a: Action, day: int)
    requires a.Deliver?
    ensures var w' := Step(me, precheck, w, a);
            var key := DigestKey(me, day);
            && TimesPosted(w'.posts, key) == TimesPosted(w.posts, key)
            && (key in w'.sent <==> key in w.sent)
            && (key in w.sent ==> w'.sent[key] == w.sent[key])
  {
    var ns := Webhook.Build(a.ev);
    var w' := Step(me, precheck, w, a);
    Webhook.BuildIsKeyed(a.ev);
    DispatchAtMostOne(w.sent, ns, a.mark);
    var d := DispatchAll(Begin(w.sent), Batch(ns, a.mark));
    if ns != [] {
      Webhook.KeyFaithful(Webhook.PrintOf(a.ev).value, Webhook.Digest(me, day));
      assert ns[0].dedupeKey != DigestKey(me, day);
    }
    if d.sends == [] {
      assert w'.posts == w.posts;
    } else {
      assert Posted(a.mark.at * SECOND, a.user, d.sends) == [Post(a.mark.at * SECOND, a.user, ns[0])];
      OnePostMore(w.posts, Post(a.mark.at * SECOND, a.user, ns[0]), DigestKey(me, day));
    }
  }
}
