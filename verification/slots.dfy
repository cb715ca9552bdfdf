/** A day's slot: consumed by the first task list obtained for it, whatever comes of the sending; and the
    pre-check that skips consumed days changes nothing but the number of task queries. */
module Slots {
  import opened Base
  import opened Store
  import opened Notify
  import opened Cron
  import opened Engine

  /** Whether each task query for a day was answered, in order. */
  function Answers(fetches: seq<Fetch>, day: int): seq<bool> {
    if fetches == [] then []
    else
      var f := fetches[|fetches| - 1];
      Answers(fetches[..|fetches| - 1], day) + if f.day == day then [f.obtained] else []
  }

  lemma OneFetchMore(fetches: seq<Fetch>, f: Fetch, day: int)
    ensures Answers(fetches + [f], day) == Answers(fetches, day) + if f.day == day then [f.obtained] else []
  {
    assert (fetches + [f])[..|fetches|] == fetches;
  }

  /** Recorded exactly if the latest query was answered, and every query before that failed. */
  predicate Consumed(recorded: bool, answers: seq<bool>) {
    && (recorded <==> answers != [] && answers[|answers| - 1])
    && forall i :: 0 <= i < |answers| - 1 ==> !answers[i]
  }

  predicate Slot(me: int, w: World, day: int) {
    Consumed(DigestKey(me, day) in w.sent, Answers(w.fetches, day))
  }

  lemma OneAnswerMore(recorded: bool, answers: seq<bool>, more: seq<bool>)
    requires Consumed(recorded, answers) && |more| <= 1 && (more != [] ==> !recorded)
    ensures Consumed(recorded || more == [true], answers + more)
  {
    if more == [] {
      assert answers + more == answers;
    }
  }

  /** No insert of the tick fails without taking effect, and nothing is pruned. Reads, sends and Vikunja
      may fail freely, and an insert may report a failure after taking effect. */
  predicate InsertsLand(a: Action) {
    && (a.Tick? ==> a.env.mark.fault != FailsUnapplied && a.env.finalMark.fault != FailsUnapplied)
    && !a.Prune?
  }

  lemma FetchUnfolds(me: int, precheck: bool, w: World, env: TickEnv)
    ensures Step(me, precheck, w, Tick(env)).fetches == w.fetches +
      match DueDay(me, w, env)
      case None => []
      case Some(day) =>
        if precheck && (env.checkFails || DigestKey(me, day) in w.sent) then []
        else [Fetch(day, env.tasks.Some?)]
  {
  }

  /** The query one action makes for a day, if any, as its answer. */
  function NewAnswer(me: int, w: World, a: Action, day: int): seq<bool> {
    if a.Tick? && DueDay(me, w, a.env) == Some(day) && !a.env.checkFails && DigestKey(me, day) !in w.sent
    then [a.env.tasks.Some?] else []
  }

  lemma AnswersAfter(me: int, w: World, a: Action, day: int)
    ensures Answers(Step(me, true, w, a).fetches, day) == Answers(w.fetches, day) + NewAnswer(me, w, a, day)
  {
    assert w.fetches + [] == w.fetches && Answers(w.fetches, day) + [] == Answers(w.fetches, day);
    if a.Tick? {
      FetchUnfolds(me, true, w, a.env);
      var due := DueDay(me, w, a.env);
      if due.Some? {
        OneFetchMore(w.fetches, Fetch(due.value, a.env.tasks.Some?), day);
      }
    } else {
      OthersOnDay(me, true, w, a, day);
    }
  }

  lemma KeyAfter(me: int, w: World, a: Action, day: int)
    requires InsertsLand(a)
    ensures DigestKey(me, day) in Step(me, true, w, a).sent
       <==> DigestKey(me, day) in w.sent || NewAnswer(me, w, a, day) == [true]
  {
    if a.Tick? {
      TickOnDay(me, true, w, a.env, day);
    } else {
      OthersOnDay(me, true, w, a, day);
    }
  }

  lemma SlotStep(me: int, w: World, a: Action, day: int)
    requires Slot(me, w, day) && InsertsLand(a)
    ensures Slot(me, Step(me, true, w, a), day)
  {
    AnswersAfter(me, w, a, day);
    KeyAfter(me, w, a, day);
    OneAnswerMore(DigestKey(me, day) in w.sent, Answers(w.fetches, day), NewAnswer(me, w, a, day));
  }

  /** Over every run: a day's key is recorded if and only if some tick due that day obtained its tasks. All
      earlier queries for the day failed and left it open, and there is none after. */
  lemma {:induction false} SlotConsumedByFetch(me: int, w: World, actions: seq<Action>, day: int)
    requires Slot(me, w, day) && forall a :: a in actions ==> InsertsLand(a)
    ensures Slot(me, Run(me, true, w, actions), day)
    decreases |actions|
  {
    if actions != [] {
      var a := actions[0];
      assert a in actions;
      SlotStep(me, w, a, day);
      SlotConsumedByFetch(me, Step(me, true, w, a), actions[1..], day);
    }
  }

  /** Once the day is recorded no tick queries or sends for it again, even if nothing was due that day or
      the send failed. */
  lemma {:induction false} NothingAfterRecording(me: int, w: World, actions: seq<Action>, day: int)
    requires DigestKey(me, day) in w.sent && forall a :: a in actions ==> !a.Prune?
    ensures var w' := Run(me, true, w, actions);
            && DigestKey(me, day) in w'.sent
            && Answers(w'.fetches, day) == Answers(w.fetches, day)
            && TimesPosted(w'.posts, DigestKey(me, day)) == TimesPosted(w.posts, DigestKey(me, day))
    decreases |actions|
  {
    if actions != [] {
      var a := actions[0];
      assert a in actions;
      AnswersAfter(me, w, a, day);
      if a.Tick? {
        TickOnDay(me, true, w, a.env, day);
      } else {
        OthersOnDay(me, true, w, a, day);
      }
      NothingAfterRecording(me, Step(me, true, w, a), actions[1..], day);
    }
  }

  // ---- The pre-check ----

  /** Equal but for the task queries made. */
  predicate SameButQueries(w: World, v: World) {
    w.sent == v.sent && w.settings == v.settings && w.posts == v.posts
  }

  lemma PrecheckStep(me: int, w: World, v: World, a: Action)
    requires SameButQueries(w, v) && multiset(w.fetches) <= multiset(v.fetches)
    requires a.Tick? ==> !a.env.checkFails
    ensures SameButQueries(Step(me, true, w, a), Step(me, false, v, a))
    ensures multiset(Step(me, true, w, a).fetches) <= multiset(Step(me, false, v, a).fetches)
  {
    if a.Tick? {
      PrecheckTick(me, w, v, a.env);
    }
  }

  lemma PrecheckTick(me: int, w: World, v: World, env: TickEnv)
    requires SameButQueries(w, v) && multiset(w.fetches) <= multiset(v.fetches) && !env.checkFails
    ensures SameButQueries(Step(me, true, w, Tick(env)), Step(me, false, v, Tick(env)))
    ensures multiset(Step(me, true, w, Tick(env)).fetches) <= multiset(Step(me, false, v, Tick(env)).fetches)
  {
    SameTable(me, w, v, env);
    TickUnfolds(me, true, w, env);
    TickUnfolds(me, false, v, env);
    FetchUnfolds(me, true, w, env);
    FetchUnfolds(me, false, v, env);
    SameSettings(me, w, v, env);
    hide Step;
  }

  lemma SameSettings(me: int, w: World, v: World, env: TickEnv)
    requires w.settings == v.settings
    ensures Step(me, true, w, Tick(env)).settings == Step(me, false, v, Tick(env)).settings
    ensures DueDay(me, w, env) == DueDay(me, v, env)
  {
    hide Evaluate, Decide;
  }

  lemma SameTable(me: int, w: World, v: World, env: TickEnv)
    requires w.sent == v.sent && w.settings == v.settings && !env.checkFails
    ensures Step(me, true, w, Tick(env)).sent == Step(me, false, v, Tick(env)).sent
  {
    TickUnfolds(me, true, w, env);
    TickUnfolds(me, false, v, env);
  }

  /** The NotificationSent query is a pure optimisation: the same actions with and without it end in the
      same tables and the same sends, and it only ever saves task queries. Its own query must not fail;
      inserts may. */
  lemma {:induction false} PrecheckIsPure(me: int, w: World, v: World, actions: seq<Action>)
    requires SameButQueries(w, v) && multiset(w.fetches) <= multiset(v.fetches)
    requires forall a :: a in actions && a.Tick? ==> !a.env.checkFails
    ensures SameButQueries(Run(me, true, w, actions), Run(me, false, v, actions))
    ensures multiset(Run(me, true, w, actions).fetches) <= multiset(Run(me, false, v, actions).fetches)
    decreases |actions|
  {
    if actions != [] {
      var a := actions[0];
      assert a in actions;
      PrecheckStep(me, w, v, a);
      PrecheckIsPure(me, Step(me, true, w, a), Step(me, false, v, a), actions[1..]);
    }
  }
}
