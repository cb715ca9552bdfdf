/** The one-statement machine against the dispatcher and the cron: a thread running alone does what they do,
    and threads running together do, key by key, what some serial order of whole turns does. */
module Refinement {
  import opened Base
  import opened Store
  import opened Notify
  import opened Cron
  import opened Interleaving
  import Digest
  import Vikunja

  // ---- One thread alone ----

  /** The statements a dispatching thread makes, one by one: the mark, then the Send of what is to go out, and
      so on until an error. sends says how each Send goes. */
  function DispatchSchedule(t: nat, sent: SentTable, batch: seq<Attempt>, sends: seq<Fault>): seq<Action>
    requires |sends| == |batch|
    decreases |batch|
  {
    if batch == [] then []
    else
      var after := DispatchOne(Begin(sent), batch[0]);
      [Advance(t, batch[0].mark.fault, None)]
      + (if after.sends == [] then [] else [Advance(t, sends[0], None)])
      + if after.failed then [] else DispatchSchedule(t, after.sent, batch[1..], sends[1..])
  }

  /** The statements a digest thread makes: the pre-check, the task query, the dispatch, the way to the final
      mark, and the final mark, each as the tick's environment has it. */
  function ServeSchedule(t: nat, sent: SentTable, key: string, env: TickEnv, sends: seq<Fault>): seq<Action>
    requires env.tasks.Some? ==> |sends| == |Digest.Briefing(env.tasks.value, key)|
  {
    [Advance(t, if env.checkFails then FailsUnapplied else Works, None)]
    + if env.checkFails || key in sent then [] else
        [Advance(t, Works, env.tasks)]
        + if env.tasks.None? then [] else FinishSchedule(t, sent, key, env.tasks.value, env, sends)
  }

  function FinishSchedule(t: nat, sent: SentTable, key: string, tasks: seq<Vikunja.Task>, env: TickEnv,
                          sends: seq<Fault>): seq<Action>
    requires |sends| == |Digest.Briefing(tasks, key)|
  {
    var batch := Batch(Digest.Briefing(tasks, key), env.mark);
    DispatchSchedule(t, sent, batch, sends)
    + if DispatchAll(Begin(sent), batch).failed then []
      else [Advance(t, Works, None)] + [Advance(t, env.finalMark.fault, None)]
  }

  /** Only thread t moves. */
  predicate OwnSteps(t: nat, actions: seq<Action>) {
    forall a :: a in actions ==> a.Advance? && a.t == t
  }

  lemma {:induction false} DispatchScheduleIsOwn(t: nat, sent: SentTable, batch: seq<Attempt>, sends: seq<Fault>)
    requires |sends| == |batch|
    ensures OwnSteps(t, DispatchSchedule(t, sent, batch, sends))
    decreases |batch|
  {
    hide DispatchOne;
    if batch != [] {
      DispatchScheduleIsOwn(t, DispatchOne(Begin(sent), batch[0]).sent, batch[1..], sends[1..]);
    }
  }

  lemma ServeScheduleIsOwn(t: nat, sent: SentTable, key: string, env: TickEnv, sends: seq<Fault>)
    requires env.tasks.Some? ==> |sends| == |Digest.Briefing(env.tasks.value, key)|
    ensures OwnSteps(t, ServeSchedule(t, sent, key, env, sends))
  {
    hide Digest.Briefing, DispatchAll, DispatchSchedule;
    if env.tasks.Some? {
      DispatchScheduleIsOwn(t, sent, Batch(Digest.Briefing(env.tasks.value, key), env.mark), sends);
    }
  }

  /** Every other thread stays where it is. */
  lemma {:induction false} OthersWait(s: State, t: nat, actions: seq<Action>)
    requires OwnSteps(t, actions)
    ensures Exec(s, actions).threads - {t} == s.threads - {t}
    decreases |actions|
  {
    if actions != [] {
      assert actions[0] in actions;
      OneOtherWaits(s, t, actions[0]);
      OthersWait(Step(s, actions[0]), t, actions[1..]);
    }
  }

  lemma OneOtherWaits(s: State, t: nat, a: Action)
    requires a.Advance? && a.t == t
    ensures Step(s, a).threads - {t} == s.threads - {t}
  {
    hide Digest.Briefing, InsertRow;
    if t in s.threads {
      match s.threads[t]
      case Checking(_) =>
      case Fetching(_) =>
      case Marking(_, _) => MarkingLeavesOthers(s, t, a.fault);
      case Sending(_, _, _) =>
      case Finishing(m) => InsertKeepsThreads(s, m.key, false);
    }
  }

  lemma InsertKeepsThreads(s: State, key: string, follows: bool)
    ensures InsertRow(s, key, follows).threads == s.threads
  {
  }

  lemma MarkingLeavesOthers(s: State, t: nat, fault: Fault)
    requires t in s.threads && s.threads[t].Marking?
    ensures AdvanceThread(s, t, fault, None).threads - {t} == s.threads - {t}
  {
    hide InsertRow;
    if s.threads[t].todo != [] {
      InsertKeepsThreads(s, s.threads[t].todo[0].dedupeKey, true);
      InsertKeepsThreads(s, s.threads[t].todo[0].dedupeKey, false);
    }
  }

  lemma {:induction false} ExecConcat(s: State, a: seq<Action>, b: seq<Action>)
    ensures Exec(s, a + b) == Exec(Exec(s, a), b)
    decreases |a|
  {
    hide Step;
    if a == [] {
      assert a + b == b;
    } else {
      assert (a + b)[1..] == a[1..] + b;
      ExecConcat(Step(s, a[0]), a[1..], b);
    }
  }

  lemma ExecOne(s: State, a: Action)
    ensures Exec(s, [a]) == Step(s, a)
  {
    hide Step;
    assert [a][1..] == [];
    assert Exec(Step(s, a), []) == Step(s, a);
  }

  function Todo(batch: seq<Attempt>): seq<Notification> {
    seq(|batch|, i requires 0 <= i < |batch| => batch[i].n)
  }

  /** A state seen as a dispatch in progress over a table with the same keys. */
  predicate Matches(s: State, d: Delivery) {
    s.rows == d.sent.Keys && s.posts == d.sends
  }

  /** Where the thread stands after its turn. */
  predicate TurnOver(s: State, t: nat, d: Delivery, rest: seq<Notification>, digest: Option<Morning>) {
    if d.failed then t !in s.threads else t in s.threads && s.threads[t] == Marking(rest, digest)
  }

  /** A turn depends on the table only, not on what was sent before. */
  lemma TurnFrom(d: Delivery, a: Attempt)
    requires !d.failed
    ensures DispatchOne(d, a)
         == DispatchOne(Begin(d.sent), a).(sends := d.sends + DispatchOne(Begin(d.sent), a).sends)
    ensures DispatchOne(Begin(d.sent), a).sends in {[], [a.n]}
    ensures DispatchOne(Begin(d.sent), a).sends != [] ==> !DispatchOne(Begin(d.sent), a).failed
  {
    assert d.sends + [] == d.sends && [] + [a.n] == [a.n];
  }

  /** The first statement of a turn: the turn is over, or the thread stands before its Send. */
  lemma LoneMark(s: State, t: nat, a: Attempt, rest: seq<Notification>, digest: Option<Morning>, d: Delivery)
    requires t in s.threads && s.threads[t] == Marking([a.n] + rest, digest) && Matches(s, d) && !d.failed
    ensures var s', after := Step(s, Advance(t, a.mark.fault, None)), DispatchOne(Begin(d.sent), a);
            && s'.rows == after.sent.Keys && s'.posts == d.sends
            && if after.sends == [] then TurnOver(s', t, after, rest, digest)
               else t in s'.threads && s'.threads[t] == Sending(a.n, rest, digest)
  {
    assert ([a.n] + rest)[0] == a.n && ([a.n] + rest)[1..] == rest;
  }

  lemma LoneSend(s: State, t: nat, n: Notification, rest: seq<Notification>, digest: Option<Morning>, send: Fault)
    requires t in s.threads && s.threads[t] == Sending(n, rest, digest)
    ensures var s' := Step(s, Advance(t, send, None));
            s'.rows == s.rows && s'.posts == s.posts + [n] && t in s'.threads && s'.threads[t] == Marking(rest, digest)
  {
  }

  lemma LoneTurn(s: State, t: nat, a: Attempt, rest: seq<Notification>, digest: Option<Morning>, d: Delivery,
                 send: Fault)
    requires t in s.threads && s.threads[t] == Marking([a.n] + rest, digest) && Matches(s, d) && !d.failed
    ensures var turn := [Advance(t, a.mark.fault, None)]
                        + if DispatchOne(Begin(d.sent), a).sends == [] then [] else [Advance(t, send, None)];
            Matches(Exec(s, turn), DispatchOne(d, a)) && TurnOver(Exec(s, turn), t, DispatchOne(d, a), rest, digest)
  {
    hide Exec, DispatchOne, Step;
    var mark := Advance(t, a.mark.fault, None);
    LoneMark(s, t, a, rest, digest, d);
    TurnFrom(d, a);
    ExecOne(s, mark);
    assert d.sends + [] == d.sends && [mark] + [] == [mark];
    if DispatchOne(Begin(d.sent), a).sends != [] {
      LoneSend(Step(s, mark), t, a.n, rest, digest, send);
      ExecOne(Step(s, mark), Advance(t, send, None));
      ExecConcat(s, [mark], [Advance(t, send, None)]);
    }
  }

  lemma TurnByTurn(d: Delivery, batch: seq<Attempt>)
    requires batch != []
    ensures DispatchAll(d, batch) == DispatchAll(DispatchOne(d, batch[0]), batch[1..])
    ensures DispatchOne(d, batch[0]).failed ==> DispatchAll(d, batch) == DispatchOne(d, batch[0])
  {
    hide DispatchOne;
    var a, rest := batch[0], batch[1..];
    assert [a][..0] == [] && DispatchAll(d, [a]) == DispatchOne(d, a);
    assert batch == [a] + rest;
    DispatchConcat(d, [a], rest);
    if DispatchOne(d, a).failed {
      FailedStays(DispatchOne(d, a), rest);
    }
  }

  /** A dispatching thread's own statements, and no others, do what Dispatch does: the same rows, the same
      sends, and the thread stops exactly when Dispatch returns an error. */
  lemma {:induction false} LoneDispatch(s: State, t: nat, batch: seq<Attempt>, sends: seq<Fault>,
                                        digest: Option<Morning>, d: Delivery)
    requires |sends| == |batch|
    requires t in s.threads && s.threads[t] == Marking(Todo(batch), digest) && Matches(s, d) && !d.failed
    ensures OwnSteps(t, DispatchSchedule(t, d.sent, batch, sends))
    ensures var s' := Exec(s, DispatchSchedule(t, d.sent, batch, sends));
            && Matches(s', DispatchAll(d, batch)) && TurnOver(s', t, DispatchAll(d, batch), [], digest)
            && s'.threads - {t} == s.threads - {t}
    decreases |batch|
  {
    DispatchScheduleIsOwn(t, d.sent, batch, sends);
    OthersWait(s, t, DispatchSchedule(t, d.sent, batch, sends));
    if batch != [] {
      hide Exec, DispatchOne, Step, OwnSteps, DispatchAll;
      var a, rest := batch[0], batch[1..];
      assert Todo(batch) == [a.n] + Todo(rest);
      LoneTurn(s, t, a, Todo(rest), digest, d, sends[0]);
      TurnFrom(d, a);
      TurnByTurn(d, batch);
      var turn := [Advance(t, a.mark.fault, None)]
                  + if DispatchOne(Begin(d.sent), a).sends == [] then [] else [Advance(t, sends[0], None)];
      var d1 := DispatchOne(d, a);
      if d1.failed {
        assert DispatchSchedule(t, d.sent, batch, sends) == turn + [];
        assert turn + [] == turn;
      } else {
        var more := DispatchSchedule(t, d1.sent, rest, sends[1..]);
        assert DispatchSchedule(t, d.sent, batch, sends) == turn + more;
        ExecConcat(s, turn, more);
        LoneDispatch(Exec(s, turn), t, rest, sends[1..], digest, d1);
      }
    }
  }

  /** Earlier sends are carried along. */
  lemma {:induction false} SendsAppend(d: Delivery, before: seq<Notification>, batch: seq<Attempt>)
    ensures DispatchAll(d.(sends := before + d.sends), batch)
         == DispatchAll(d, batch).(sends := before + DispatchAll(d, batch).sends)
  {
    if batch != [] {
      SendsAppend(d, before, batch[..|batch| - 1]);
      var x := DispatchAll(d, batch[..|batch| - 1]);
      var n := batch[|batch| - 1].n;
      assert before + (x.sends + [n]) == (before + x.sends) + [n];
    }
  }

  /** The state after a tick: the rows and sends of the cron's evaluation, the thread gone, the others untouched. */
  predicate Served(s: State, t: nat, e: Effect, s': State) {
    && s'.rows == e.sent.Keys && s'.posts == s.posts + e.sends
    && t !in s'.threads && s'.threads - {t} == s.threads - {t}
  }

  /** A digest thread's own statements, and no others, do what the cron does with a due day. */
  lemma LoneTick(s: State, t: nat, key: string, env: TickEnv, sends: seq<Fault>, sent: SentTable)
    requires t in s.threads && s.threads[t] == Checking(key) && s.rows == sent.Keys
    requires env.tasks.Some? ==> |sends| == |Digest.Briefing(env.tasks.value, key)|
    ensures OwnSteps(t, ServeSchedule(t, sent, key, env, sends))
    ensures Served(s, t, Serve(sent, key, env, true), Exec(s, ServeSchedule(t, sent, key, env, sends)))
  {
    hide Exec, OwnSteps, DispatchAll, Digest.Briefing, FinishSchedule;
    ServeScheduleIsOwn(t, sent, key, env, sends);
    OthersWait(s, t, ServeSchedule(t, sent, key, env, sends));
    var check := Advance(t, if env.checkFails then FailsUnapplied else Works, None);
    var fetch := Advance(t, Works, env.tasks);
    var s1, s2 := Step(s, check), Step(Step(s, check), fetch);
    ExecOne(s, check);
    ExecOne(s1, fetch);
    ExecConcat(s, [check], [fetch]);
    assert s.posts + [] == s.posts && [check] + [] == [check] && [check] + ([fetch] + []) == [check] + [fetch];
    if !env.checkFails && key !in sent && env.tasks.Some? {
      var rest := FinishSchedule(t, sent, key, env.tasks.value, env, sends);
      LoneServing(s2, t, key, env, sends, sent);
      ExecConcat(s, [check] + [fetch], rest);
      assert [check] + ([fetch] + rest) == [check] + [fetch] + rest;
    }
  }

  lemma LoneServing(s: State, t: nat, key: string, env: TickEnv, sends: seq<Fault>, sent: SentTable)
    requires key !in sent && s.rows == sent.Keys && env.tasks.Some? && !env.checkFails
    requires |sends| == |Digest.Briefing(env.tasks.value, key)|
    requires t in s.threads
    requires s.threads[t] == Marking(Digest.Briefing(env.tasks.value, key), Some(Morning(key, env.tasks.value)))
    ensures var e := Serve(sent, key, env, true);
            var s' := Exec(s, FinishSchedule(t, sent, key, env.tasks.value, env, sends));
            s'.rows == e.sent.Keys && s'.posts == s.posts + e.sends && t !in s'.threads
  {
    hide Digest.Briefing, Exec, DispatchAll, DispatchSchedule, OwnSteps;
    var morning := Morning(key, env.tasks.value);
    var batch := Batch(Digest.Briefing(env.tasks.value, key), env.mark);
    assert Todo(batch) == Digest.Briefing(env.tasks.value, key);
    assert s.posts + [] == s.posts;
    var d := Delivery(sent, s.posts, false);
    var dispatch := DispatchSchedule(t, sent, batch, sends);
    LoneDispatch(s, t, batch, sends, Some(morning), d);
    SendsAppend(Begin(sent), s.posts, batch);
    if DispatchAll(d, batch).failed {
      assert dispatch + [] == dispatch;
    } else {
      LoneFinish(Exec(s, dispatch), t, morning, env.finalMark.fault);
      ExecConcat(s, dispatch, [Advance(t, Works, None)] + [Advance(t, env.finalMark.fault, None)]);
    }
  }

  lemma LoneFinish(s: State, t: nat, morning: Morning, fault: Fault)
    requires t in s.threads && s.threads[t] == Marking([], Some(morning))
    ensures var s' := Exec(s, [Advance(t, Works, None)] + [Advance(t, fault, None)]);
            && t !in s'.threads && s'.posts == s.posts
            && s'.rows == if fault == FailsUnapplied then s.rows else s.rows + {morning.key}
  {
    hide Exec;
    var s1 := Step(s, Advance(t, Works, None));
    ExecOne(s, Advance(t, Works, None));
    ExecOne(s1, Advance(t, fault, None));
    ExecConcat(s, [Advance(t, Works, None)], [Advance(t, fault, None)]);
  }
}
