/** Interleaved runs reduce to serial ones: what threads do together, statement by statement, is what whole
    turns of the dispatcher and whole evaluations of due days do one after another. */
module Serial {
  import opened Base
  import opened Store
  import opened Notify
  import opened Cron
  import opened Interleaving
  import Digest
  import Vikunja

  /** One turn of a delivery's dispatch (the companion's deliveries have at most one), or a due day served from
      its pre-check to its final mark. */
  datatype Whole = Delivered(a: Attempt) | Ticked(key: string, env: TickEnv)

  function Done(d: Delivery, x: Whole): Delivery {
    match x
    case Delivered(a) =>
      var after := DispatchAll(Begin(d.sent), [a]);
      Delivery(after.sent, d.sends + after.sends, false)
    case Ticked(key, env) =>
      var e := Serve(d.sent, key, env, true);
      Delivery(e.sent, d.sends + e.sends, false)
  }

  function DoneAll(d: Delivery, xs: seq<Whole>): Delivery
    decreases |xs|
  {
    if xs == [] then d else DoneAll(Done(d, xs[0]), xs[1..])
  }

  /** A tick that works up to its marks, which go as given. */
  function Serving(tasks: seq<Vikunja.Task>, mark: Fault, finalMark: Fault): TickEnv {
    TickEnv(0, map[], false, None, Works, false, Some(tasks), Response(mark, 0), false, Response(finalMark, 0))
  }

  /** The statement at which a thread takes effect stands for all it does: a mark for its turn or its tick, and
      the final mark of a day nothing was recorded for. All other statements stand for nothing. */
  function WholeOf(s: State, a: Action): seq<Whole> {
    if !a.Advance? || a.t !in s.threads then []
    else
      match s.threads[a.t]
      case Marking(todo, digest) =>
        if todo == [] then []
        else if digest.None? then [Delivered(Attempt(todo[0], Response(a.fault, 0)))]
        else [Ticked(digest.value.key, Serving(digest.value.tasks, a.fault, Works))]
      case Finishing(m) => if m.key in s.rows then [] else [Ticked(m.key, Serving(m.tasks, Works, a.fault))]
      case _ => []
  }

  function SerialOf(s: State, actions: seq<Action>): seq<Whole>
    decreases |actions|
  {
    if actions == [] then [] else WholeOf(s, actions[0]) + SerialOf(Step(s, actions[0]), actions[1..])
  }

  /** Kills of a thread between its mark and its Send. */
  function KilledBefore(s: State, a: Action, key: string): nat {
    One(a.Kill? && a.t in s.threads && Holds(s.threads[a.t], key))
  }

  function Kills(s: State, actions: seq<Action>, key: string): nat
    decreases |actions|
  {
    if actions == [] then 0 else KilledBefore(s, actions[0], key) + Kills(Step(s, actions[0]), actions[1..], key)
  }

  /** What a thread can be up to as long as nothing is pruned. */
  predicate Orderly(th: Thread, rows: set<string>) {
    match th
    case Checking(key) => key != ""
    case Fetching(key) => key != ""
    case Marking(todo, digest) =>
      digest.Some? ==> digest.value.key != "" &&
                       (todo == Digest.Briefing(digest.value.tasks, digest.value.key)
                        || (todo == [] && digest.value.key in rows))
    case Sending(_, rest, digest) =>
      digest.Some? ==> digest.value.key != "" && rest == [] && digest.value.key in rows
    case Finishing(m) => m.key != "" && (Digest.Briefing(m.tasks, m.key) == [] || m.key in rows)
  }

  predicate AllOrderly(s: State) {
    forall t :: t in s.threads ==> Orderly(s.threads[t], s.rows)
  }

  /** Ticks are for days, whose keys are not empty, and nothing is pruned. */
  predicate Admissible(a: Action) {
    !a.Prune? && (a.StartTick? ==> a.key != "")
  }

  lemma StaysOrderly(th: Thread, rows: set<string>, more: set<string>)
    requires Orderly(th, rows) && rows <= more
    ensures Orderly(th, more)
  {
  }

  lemma OneMoves(s: State, a: Action, u: nat)
    requires !a.Prune? && u in Step(s, a).threads
    ensures s.rows <= Step(s, a).rows
    ensures || (u in s.threads && Step(s, a).threads[u] == s.threads[u])
            || ((a.StartDelivery? || a.StartTick?) && u == a.t)
            || (a.Advance? && a.t in s.threads && u == a.t)
  {
    hide Digest.Briefing;
  }

  lemma OrderlyStep(s: State, a: Action)
    requires AllOrderly(s) && Admissible(a)
    ensures AllOrderly(Step(s, a))
  {
    hide Step, Orderly;
    var s' := Step(s, a);
    forall u | u in s'.threads ensures Orderly(s'.threads[u], s'.rows) {
      OneMoves(s, a, u);
      if u in s.threads && s'.threads[u] == s.threads[u] {
        StaysOrderly(s.threads[u], s.rows, s'.rows);
      } else if a.Advance? {
        NextIsOrderly(s, a);
      } else {
        StartIsOrderly(s, a);
      }
    }
  }

  lemma StartIsOrderly(s: State, a: Action)
    requires a.StartDelivery? || a.StartTick?
    requires Admissible(a) && a.t in Step(s, a).threads
    requires a.t !in s.threads || Step(s, a).threads[a.t] != s.threads[a.t]
    ensures Orderly(Step(s, a).threads[a.t], Step(s, a).rows)
  {
  }

  lemma NextIsOrderly(s: State, a: Action)
    requires AllOrderly(s) && a.Advance? && a.t in s.threads && a.t in Step(s, a).threads
    ensures Orderly(Step(s, a).threads[a.t], Step(s, a).rows)
  {
    hide Digest.BodyFor, Digest.UrgentAt;
    assert Orderly(s.threads[a.t], s.rows);
  }

  /** The notification a statement commits to: marked now, its Send still to come. */
  predicate Commits(s: State, a: Action, key: string) {
    && a.Advance? && a.t in s.threads && s.threads[a.t].Marking? && s.threads[a.t].todo != []
    && s.threads[a.t].todo[0].dedupeKey == key && key !in s.rows && a.fault == Works
  }

  /** Sends made or committed to. */
  function Owed(s: State, key: string): int {
    TimesSent(s.posts, key) + |Holders(s.threads, key)|
  }

  lemma OwedStep(s: State, a: Action, key: string)
    requires key != "" && Balanced(s, key)
    ensures Owed(Step(s, a), key) + KilledBefore(s, a, key) == Owed(s, key) + One(Commits(s, a, key))
  {
    hide Holders, TimesSent, Digest.Briefing;
    StepKeepsBalance(s, a, key);
  }

  /** A whole tick at the statement where its thread takes effect. */
  lemma WholeTick(d: Delivery, key: string, tasks: seq<Vikunja.Task>, mark: Fault, finalMark: Fault)
    requires key != ""
    ensures var d', ns := Done(d, Ticked(key, Serving(tasks, mark, finalMark))), Digest.Briefing(tasks, key);
            && d'.sends == d.sends + (if key !in d.sent && mark == Works then ns else [])
            && d'.sent.Keys == d.sent.Keys
                               + if (if ns == [] then finalMark else mark) == FailsUnapplied then {} else {key}
  {
    hide DispatchAll;
    if key !in d.sent {
      ServeUnfolds(d.sent, key, Serving(tasks, mark, finalMark), true);
    }
  }

  lemma WholeTurn(d: Delivery, a: Attempt)
    ensures var d' := Done(d, Delivered(a));
            && d'.sends == d.sends + (if a.n.dedupeKey == "" || (a.n.dedupeKey !in d.sent && a.mark.fault == Works)
                                      then [a.n] else [])
            && d'.sent.Keys == d.sent.Keys + if a.n.dedupeKey == "" || a.mark.fault == FailsUnapplied then {}
                                             else {a.n.dedupeKey}
  {
    assert [a][..0] == [] && DispatchAll(Begin(d.sent), [a]) == DispatchOne(Begin(d.sent), a);
    assert [] + [a.n] == [a.n];
  }

  /** One statement changes the table and the sends owed just as the whole it stands for changes them at once. */
  predicate SameEffect(s: State, d: Delivery, a: Action, key: string) {
    var d' := DoneAll(d, WholeOf(s, a));
    && Step(s, a).rows == d'.sent.Keys
    && TimesSent(d'.sends, key) == TimesSent(d.sends, key) + One(Commits(s, a, key))
  }

  lemma DoneOne(d: Delivery, x: Whole)
    ensures DoneAll(d, [x]) == Done(d, x) && DoneAll(d, []) == d
  {
    hide Done;
    assert [x][1..] == [];
    assert DoneAll(Done(d, x), []) == Done(d, x);
  }

  lemma MarkInDelivery(s: State, d: Delivery, a: Action, key: string)
    requires key != "" && s.rows == d.sent.Keys && a.Advance? && a.t in s.threads
    requires s.threads[a.t].Marking? && s.threads[a.t].todo != [] && s.threads[a.t].digest.None?
    ensures SameEffect(s, d, a, key)
  {
    hide Done, DoneAll, TimesSent;
    var n := s.threads[a.t].todo[0];
    var turn := Attempt(n, Response(a.fault, 0));
    WholeTurn(d, turn);
    DoneOne(d, Delivered(turn));
    OneSendMore(d.sends, n, key);
    assert d.sends + [] == d.sends;
  }

  lemma MarkInTick(s: State, d: Delivery, a: Action, key: string)
    requires key != "" && s.rows == d.sent.Keys && AllOrderly(s) && a.Advance? && a.t in s.threads
    requires s.threads[a.t].Marking? && s.threads[a.t].todo != [] && s.threads[a.t].digest.Some?
    ensures SameEffect(s, d, a, key)
  {
    hide Done, DoneAll, TimesSent, Digest.BodyFor, Digest.UrgentAt;
    var Marking(todo, digest) := s.threads[a.t];
    var m := digest.value;
    assert Orderly(s.threads[a.t], s.rows);
    assert todo == Digest.Briefing(m.tasks, m.key) && todo == [todo[0]] && todo[0].dedupeKey == m.key;
    WholeTick(d, m.key, m.tasks, a.fault, Works);
    DoneOne(d, Ticked(m.key, Serving(m.tasks, a.fault, Works)));
    OneSendMore(d.sends, todo[0], key);
    assert d.sends + [] == d.sends;
  }

  lemma FinalMark(s: State, d: Delivery, a: Action, key: string)
    requires key != "" && s.rows == d.sent.Keys && AllOrderly(s) && a.Advance? && a.t in s.threads
    requires s.threads[a.t].Finishing?
    ensures SameEffect(s, d, a, key)
  {
    hide Done, DoneAll, TimesSent, Digest.Briefing;
    var m := s.threads[a.t].morning;
    assert Orderly(s.threads[a.t], s.rows);
    WholeTick(d, m.key, m.tasks, Works, a.fault);
    DoneOne(d, Ticked(m.key, Serving(m.tasks, Works, a.fault)));
    assert d.sends + [] == d.sends;
  }

  lemma EachStatement(s: State, d: Delivery, a: Action, key: string)
    requires key != "" && s.rows == d.sent.Keys && AllOrderly(s) && Admissible(a)
    ensures SameEffect(s, d, a, key)
  {
    hide Digest.Briefing, TimesSent;
    if a.Advance? && a.t in s.threads && s.threads[a.t].Finishing? {
      FinalMark(s, d, a, key);
    } else if a.Advance? && a.t in s.threads && s.threads[a.t].Marking? && s.threads[a.t].todo != [] {
      if s.threads[a.t].digest.None? {
        MarkInDelivery(s, d, a, key);
      } else {
        MarkInTick(s, d, a, key);
      }
    }
  }

  lemma {:induction false} DoneConcat(d: Delivery, xs: seq<Whole>, ys: seq<Whole>)
    ensures DoneAll(d, xs + ys) == DoneAll(DoneAll(d, xs), ys)
    decreases |xs|
  {
    hide Done;
    if xs == [] {
      assert xs + ys == ys;
    } else {
      assert (xs + ys)[1..] == xs[1..] + ys;
      DoneConcat(Done(d, xs[0]), xs[1..], ys);
    }
  }

  lemma {:induction false} RunIsSerial(s: State, d: Delivery, actions: seq<Action>, key: string)
    requires key != "" && s.rows == d.sent.Keys && AllOrderly(s) && Balanced(s, key)
    requires forall a :: a in actions ==> Admissible(a)
    ensures var s', d' := Exec(s, actions), DoneAll(d, SerialOf(s, actions));
            && s'.rows == d'.sent.Keys
            && TimesSent(d'.sends, key) - TimesSent(d.sends, key)
               == Owed(s', key) - Owed(s, key) + Kills(s, actions, key)
    decreases |actions|
  {
    hide Step, WholeOf, Owed, KilledBefore, Commits, AllOrderly, Balanced, TimesSent, Done;
    if actions != [] {
      var a, rest := actions[0], actions[1..];
      assert a in actions;
      EachStatement(s, d, a, key);
      OwedStep(s, a, key);
      OrderlyStep(s, a);
      StepKeepsBalance(s, a, key);
      DoneConcat(d, WholeOf(s, a), SerialOf(Step(s, a), rest));
      RunIsSerial(Step(s, a), DoneAll(d, WholeOf(s, a)), rest, key);
    }
  }

  /** However threads interleave, fail and die, as long as nothing is pruned: the table is the one left by the
      serial order of whole turns and ticks that the run's own marks spell out, and per key that order sends
      what the run has sent or is about to send, or was killed just before sending. */
  lemma EveryRunIsSerial(sent: SentTable, actions: seq<Action>, key: string)
    requires key != "" && forall a :: a in actions ==> Admissible(a)
    ensures var s, d := Exec(Start(sent.Keys), actions), DoneAll(Begin(sent), SerialOf(Start(sent.Keys), actions));
            && s.rows == d.sent.Keys
            && TimesSent(d.sends, key)
               == TimesSent(s.posts, key) + |Holders(s.threads, key)| + Kills(Start(sent.Keys), actions, key)
  {
    StartIsBalanced(sent.Keys, key);
    RunIsSerial(Start(sent.Keys), Begin(sent), actions, key);
    assert Holders(map[], key) == {};
  }
}
