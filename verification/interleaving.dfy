/** The same engine one statement at a time: any number of webhook deliveries and digest ticks in flight,
    each with its own program counter, interleaved arbitrarily with failing inserts, killed threads,
    crashes and pruning. */
module Interleaving {
  import opened Base
  import opened Store
  import opened Notify
  import opened Cron
  import Vikunja
  import Digest

  /** A due day's key and the tasks obtained for it. */
  datatype Morning = Morning(key: string, tasks: seq<Vikunja.Task>)

  /** Where a thread stands. digest is what a cron thread still has to mark after its dispatch. */
  datatype Thread =
    | Checking(key: string)
    | Fetching(key: string)
    | Marking(todo: seq<Notification>, digest: Option<Morning>)
    | Sending(n: Notification, rest: seq<Notification>, digest: Option<Morning>)
    | Finishing(morning: Morning)

  /** Tables and threads, then history: every Send call, those that got through, how often each key's row was
      inserted and pruned, and how often an inserted row will never be followed by its Send (burned). */
  datatype State = State(
    rows: set<string>,
    threads: map<nat, Thread>,
    posts: seq<Notification>,
    delivered: seq<Notification>,
    inserted: multiset<string>,
    pruned: multiset<string>,
    burned: multiset<string>)

  datatype Action =
    | StartDelivery(t: nat, ns: seq<Notification>)
    | StartTick(t: nat, key: string)
    | Advance(t: nat, fault: Fault, tasks: Option<seq<Vikunja.Task>>)
    | Kill(t: nat)
    | Prune(keys: set<string>)

  function Goto(s: State, t: nat, next: Option<Thread>): State {
    s.(threads := if next.None? then s.threads - {t} else s.threads[t := next.value])
  }

  /** The row is there afterwards. An insert nobody will follow up with a Send burns its key. */
  function InsertRow(s: State, key: string, follows: bool): State {
    if key in s.rows then s
    else s.(rows := s.rows + {key}, inserted := s.inserted + multiset{key},
            burned := if follows then s.burned else s.burned + multiset{key})
  }

  /** One atomic statement of a thread. At Send the fault is the endpoint's: a failing Send is only logged. */
  function AdvanceThread(s: State, t: nat, fault: Fault, tasks: Option<seq<Vikunja.Task>>): State
    requires t in s.threads
  {
    match s.threads[t]
    case Checking(key) =>
      Goto(s, t, if fault != Works || key in s.rows then None else Some(Fetching(key)))
    case Fetching(key) =>
      Goto(s, t, if tasks.None? then None
                 else Some(Marking(Digest.Briefing(tasks.value, key), Some(Morning(key, tasks.value)))))
    case Marking(todo, digest) =>
      if todo == [] then Goto(s, t, if digest.None? then None else Some(Finishing(digest.value)))
      else
        var n, rest := todo[0], todo[1..];
        if n.dedupeKey == "" then Goto(s, t, Some(Sending(n, rest, digest)))
        else if fault == FailsUnapplied then Goto(s, t, None)
        else if fault == FailsApplied then Goto(InsertRow(s, n.dedupeKey, false), t, None)
        else if n.dedupeKey in s.rows then Goto(s, t, Some(Marking(rest, digest)))
        else Goto(InsertRow(s, n.dedupeKey, true), t, Some(Sending(n, rest, digest)))
    case Sending(n, rest, digest) =>
      Goto(s.(posts := s.posts + [n], delivered := s.delivered + if fault == FailsUnapplied then [] else [n]),
           t, Some(Marking(rest, digest)))
    case Finishing(m) =>
      Goto(if fault == FailsUnapplied then s else InsertRow(s, m.key, false), t, None)
  }

  predicate Holds(th: Thread, key: string) {
    th.Sending? && th.n.dedupeKey == key
  }

  /** Actions that are not possible in a state leave it as it is. */
  function Step(s: State, a: Action): State {
    match a
    case StartDelivery(t, ns) => if t in s.threads then s else Goto(s, t, Some(Marking(ns, None)))
    case StartTick(t, key) => if t in s.threads then s else Goto(s, t, Some(Checking(key)))
    case Advance(t, fault, tasks) => if t in s.threads then AdvanceThread(s, t, fault, tasks) else s
    case Kill(t) =>
      if t !in s.threads then s
      else
        var th := s.threads[t];
        Goto(if th.Sending? then s.(burned := s.burned + multiset{th.n.dedupeKey}) else s, t, None)
    case Prune(keys) =>
      s.(rows := s.rows - keys, pruned := s.pruned + multiset(s.rows * keys))
  }

  /** A delivery starts at its first mark and a tick at its pre-check, in a free thread; a kill ends a thread. */
  lemma ThreadsStartAndEnd(s: State, t: nat, ns: seq<Notification>, key: string)
    ensures t !in s.threads ==>
              && Step(s, StartDelivery(t, ns)) == s.(threads := s.threads[t := Marking(ns, None)])
              && Step(s, StartTick(t, key)) == s.(threads := s.threads[t := Checking(key)])
    ensures t in s.threads ==> Step(s, StartDelivery(t, ns)) == Step(s, StartTick(t, key)) == s
    ensures Step(s, Kill(t)).threads == s.threads - {t}
  {
  }

  function Exec(s: State, actions: seq<Action>): State
    decreases |actions|
  {
    if actions == [] then s else Exec(Step(s, actions[0]), actions[1..])
  }

  /** A process start over the rows an earlier life left behind; those count as inserted and burned. */
  function Start(rows: set<string>): State {
    State(rows, map[], [], [], multiset(rows), multiset{}, multiset(rows))
  }

  // ---- Conservation ----

  /** The threads that have marked the key and not yet sent. */
  function Holders(threads: map<nat, Thread>, key: string): set<nat> {
    set t | t in threads && Holds(threads[t], key)
  }

  function One(b: bool): nat {
    if b then 1 else 0
  }

  /** Every insert of a key's row is accounted for, twice over: by the rows (it is there or was pruned), and
      by the sends (it was followed by a Send, is about to be, or never will be). */
  predicate Balanced(s: State, key: string) {
    && s.inserted[key] == s.pruned[key] + One(key in s.rows)
    && s.inserted[key] == TimesSent(s.posts, key) + |Holders(s.threads, key)| + s.burned[key]
  }

  lemma HoldersDrop(threads: map<nat, Thread>, t: nat, key: string)
    ensures |Holders(threads - {t}, key)| + One(t in threads && Holds(threads[t], key)) == |Holders(threads, key)|
  {
    var others := Holders(threads - {t}, key);
    assert t !in others;
    if t in threads && Holds(threads[t], key) {
      assert Holders(threads, key) == others + {t};
    } else {
      assert Holders(threads, key) == others;
    }
  }

  lemma HoldersGoto(s: State, t: nat, next: Option<Thread>, key: string)
    ensures |Holders(Goto(s, t, next).threads, key)| + One(t in s.threads && Holds(s.threads[t], key))
         == |Holders(s.threads, key)| + One(next.Some? && Holds(next.value, key))
  {
    HoldersDrop(s.threads, t, key);
    if next.Some? {
      var after := s.threads[t := next.value];
      HoldersDrop(after, t, key);
      assert after - {t} == s.threads - {t};
    }
  }

  /** Moving a thread that is not at its Send, to a place that is not a Send either. */
  lemma QuietMove(s: State, t: nat, next: Option<Thread>, key: string)
    requires Balanced(s, key) && t in s.threads && !s.threads[t].Sending? && (next.Some? ==> !next.value.Sending?)
    ensures Balanced(Goto(s, t, next), key)
  {
    HoldersGoto(s, t, next, key);
  }

  lemma InsertKeepsBalance(s: State, k: string, key: string)
    requires Balanced(s, key)
    ensures Balanced(InsertRow(s, k, false), key)
  {
  }

  /** A thread marks its next notification's key and goes on to send it. */
  lemma MarkKeepsBalance(s: State, t: nat, n: Notification, rest: seq<Notification>,
                         digest: Option<Morning>, key: string)
    requires Balanced(s, key) && t in s.threads && s.threads[t].Marking? && n.dedupeKey !in s.rows
    ensures Balanced(Goto(InsertRow(s, n.dedupeKey, true), t, Some(Sending(n, rest, digest))), key)
  {
    HoldersGoto(InsertRow(s, n.dedupeKey, true), t, Some(Sending(n, rest, digest)), key);
  }

  lemma SendKeepsBalance(s: State, t: nat, fault: Fault, key: string)
    requires Balanced(s, key) && t in s.threads && s.threads[t].Sending?
    ensures Balanced(AdvanceThread(s, t, fault, None), key)
  {
    var Sending(n, rest, digest) := s.threads[t];
    HoldersGoto(s, t, Some(Marking(rest, digest)), key);
    OneSendMore(s.posts, n, key);
  }

  lemma AdvanceKeepsBalance(s: State, t: nat, fault: Fault, tasks: Option<seq<Vikunja.Task>>, key: string)
    requires t in s.threads && key != "" && Balanced(s, key)
    ensures Balanced(AdvanceThread(s, t, fault, tasks), key)
  {
    match s.threads[t]
    case Checking(k) => QuietMove(s, t, None, key); QuietMove(s, t, Some(Fetching(k)), key);
    case Fetching(k) =>
      QuietMove(s, t, None, key);
      if tasks.Some? {
        QuietMove(s, t, Some(Marking(Digest.Briefing(tasks.value, k), Some(Morning(k, tasks.value)))), key);
      }
    case Marking(todo, digest) => AdvanceMarking(s, t, fault, key);
    case Sending(n, rest, digest) => SendKeepsBalance(s, t, fault, key);
    case Finishing(m) =>
      InsertKeepsBalance(s, m.key, key);
      QuietMove(s, t, None, key);
      QuietMove(InsertRow(s, m.key, false), t, None, key);
  }

  lemma AdvanceMarking(s: State, t: nat, fault: Fault, key: string)
    requires t in s.threads && s.threads[t].Marking? && key != "" && Balanced(s, key)
    ensures Balanced(AdvanceThread(s, t, fault, None), key)
  {
    var Marking(todo, digest) := s.threads[t];
    QuietMove(s, t, None, key);
    if todo == [] {
      if digest.Some? {
        QuietMove(s, t, Some(Finishing(digest.value)), key);
      }
    } else {
      var n, rest := todo[0], todo[1..];
      if n.dedupeKey == "" {
        HoldersGoto(s, t, Some(Sending(n, rest, digest)), key);
      } else if fault == FailsApplied {
        InsertKeepsBalance(s, n.dedupeKey, key);
        QuietMove(InsertRow(s, n.dedupeKey, false), t, None, key);
      } else if n.dedupeKey in s.rows {
        QuietMove(s, t, Some(Marking(rest, digest)), key);
      } else {
        MarkKeepsBalance(s, t, n, rest, digest, key);
      }
    }
  }

  lemma StepKeepsBalance(s: State, a: Action, key: string)
    requires key != "" && Balanced(s, key)
    ensures Balanced(Step(s, a), key)
  {
    match a
    case StartDelivery(t, ns) => HoldersGoto(s, t, Some(Marking(ns, None)), key);
    case StartTick(t, k) => HoldersGoto(s, t, Some(Checking(k)), key);
    case Advance(t, fault, tasks) =>
      if t in s.threads {
        AdvanceKeepsBalance(s, t, fault, tasks, key);
      }
    case Kill(t) => HoldersDrop(s.threads, t, key);
    case Prune(keys) =>
  }

  /** In every run, however threads interleave, fail and die, every insert stays accounted for. */
  lemma {:induction false} EveryInsertIsAccountedFor(s: State, actions: seq<Action>, key: string)
    requires key != "" && Balanced(s, key)
    ensures Balanced(Exec(s, actions), key)
    decreases |actions|
  {
    if actions != [] {
      StepKeepsBalance(s, actions[0], key);
      EveryInsertIsAccountedFor(Step(s, actions[0]), actions[1..], key);
    }
  }

  lemma StartIsBalanced(rows: set<string>, key: string)
    ensures Balanced(Start(rows), key)
  {
    assert Holders(map[], key) == {};
  }

  // ---- At most once ----

  predicate NoPrune(actions: seq<Action>) {
    forall a :: a in actions ==> !a.Prune?
  }

  lemma {:induction false} RowsOnlyGrow(s: State, actions: seq<Action>)
    requires NoPrune(actions)
    ensures s.rows <= Exec(s, actions).rows && Exec(s, actions).pruned == s.pruned
    decreases |actions|
  {
    if actions != [] {
      assert actions[0] in actions;
      RowsOnlyGrow(Step(s, actions[0]), actions[1..]);
    }
  }

  /** Send is called at most once per key in every run, plus once for each time its row is pruned; a key
      already recorded at the start needs a prune for its first. */
  lemma SendsBoundedByPrunes(rows: set<string>, actions: seq<Action>, key: string)
    requires key != ""
    ensures var s := Exec(Start(rows), actions);
            TimesSent(s.posts, key) + One(key in rows) <= 1 + s.pruned[key]
  {
    StartIsBalanced(rows, key);
    EveryInsertIsAccountedFor(Start(rows), actions, key);
    LossesAddUp(Start(rows), actions, key);
  }

  /** As long as nothing is pruned: at most one Send per key, never for a key recorded before the start,
      and its row is there first, also while a thread is only about to send. */
  lemma AtMostOnce(rows: set<string>, actions: seq<Action>, key: string)
    requires key != "" && NoPrune(actions)
    ensures var s := Exec(Start(rows), actions);
            && rows <= s.rows
            && TimesSent(s.posts, key) + |Holders(s.threads, key)| <= One(key in s.rows && key !in rows)
  {
    StartIsBalanced(rows, key);
    EveryInsertIsAccountedFor(Start(rows), actions, key);
    RowsOnlyGrow(Start(rows), actions);
    LossesAddUp(Start(rows), actions, key);
  }

  // ---- Exactly when a notification is lost ----

  /** The action uses up the key without a Send: a thread dies between its mark and its Send, a mark fails
      after taking effect, or the cron marks a day nothing was sent for. */
  predicate Burns(s: State, a: Action, key: string) {
    match a
    case Kill(t) => t in s.threads && Holds(s.threads[t], key)
    case Advance(t, fault, _) =>
      t in s.threads && key !in s.rows &&
      (match s.threads[t]
       case Marking(todo, _) => todo != [] && todo[0].dedupeKey == key && fault == FailsApplied
       case Finishing(m) => m.key == key && fault != FailsUnapplied
       case _ => false)
    case _ => false
  }

  /** The action is the key's Send, and it does not get through. */
  predicate SendFails(s: State, a: Action, key: string) {
    a.Advance? && a.fault == FailsUnapplied && a.t in s.threads && Holds(s.threads[a.t], key)
  }

  predicate NeverBurned(s: State, actions: seq<Action>, key: string)
    decreases |actions|
  {
    actions == [] || (!Burns(s, actions[0], key) && NeverBurned(Step(s, actions[0]), actions[1..], key))
  }

  predicate NeverFails(s: State, actions: seq<Action>, key: string)
    decreases |actions|
  {
    actions == [] || (!SendFails(s, actions[0], key) && NeverFails(Step(s, actions[0]), actions[1..], key))
  }

  /** Send calls that did not get through. */
  function Failures(s: State, key: string): int {
    TimesSent(s.posts, key) - TimesSent(s.delivered, key)
  }

  lemma LossStep(s: State, a: Action, key: string)
    requires key != ""
    ensures Step(s, a).burned[key] == s.burned[key] + One(Burns(s, a, key))
    ensures Failures(Step(s, a), key) == Failures(s, key) + One(SendFails(s, a, key))
  {
    hide TimesSent, Digest.Briefing;
    if a.Advance? && a.t in s.threads && s.threads[a.t].Sending? {
      var n := s.threads[a.t].n;
      OneSendMore(s.posts, n, key);
      OneSendMore(s.delivered, n, key);
      assert s.delivered + [] == s.delivered;
    }
  }

  lemma {:induction false} LossesAddUp(s: State, actions: seq<Action>, key: string)
    requires key != ""
    ensures var s' := Exec(s, actions);
            && s.burned[key] <= s'.burned[key] && (s'.burned[key] == s.burned[key] <==> NeverBurned(s, actions, key))
            && Failures(s, key) <= Failures(s', key)
            && (Failures(s', key) == Failures(s, key) <==> NeverFails(s, actions, key))
    decreases |actions|
  {
    hide Step, Failures, Burns, SendFails;
    if actions != [] {
      LossStep(s, actions[0], key);
      LossesAddUp(Step(s, actions[0]), actions[1..], key);
    }
  }

  /** Send is called exactly once for every newly recorded key, once no thread still holds it, if and only if
      no action of the run burned the key; and the notification gets through exactly once if and only if,
      besides, no Send of it failed. */
  lemma ExactlyOnceUnlessLost(rows: set<string>, actions: seq<Action>, key: string)
    requires key != "" && NoPrune(actions) && key !in rows
    ensures var s := Exec(Start(rows), actions);
            Holders(s.threads, key) == {} ==>
              && (TimesSent(s.posts, key) == 1 <==> key in s.rows && NeverBurned(Start(rows), actions, key))
              && (TimesSent(s.delivered, key) == 1 <==>
                    key in s.rows && NeverBurned(Start(rows), actions, key) && NeverFails(Start(rows), actions, key))
  {
    StartIsBalanced(rows, key);
    EveryInsertIsAccountedFor(Start(rows), actions, key);
    RowsOnlyGrow(Start(rows), actions);
    LossesAddUp(Start(rows), actions, key);
  }

  /** A delivery killed right between its mark and its Send. */
  function KilledRun(n: Notification): seq<Action> {
    [StartDelivery(0, [n]), Advance(0, Works, None), Kill(0)]
  }

  lemma KilledState(rows: set<string>, n: Notification)
    requires n.dedupeKey != "" && n.dedupeKey !in rows
    ensures var s := Exec(Start(rows), KilledRun(n));
            n.dedupeKey in s.rows && s.burned[n.dedupeKey] == 1 && s.pruned == multiset{}
  {
    var run := KilledRun(n);
    var s1 := Step(Start(rows), run[0]);
    var s2 := Step(s1, run[1]);
    assert s1.threads[0] == Marking([n], None);
    assert s2.threads[0] == Sending(n, [], None);
    ExecThree(Start(rows), run[0], run[1], run[2]);
    assert run == [run[0], run[1], run[2]];
  }

  lemma ExecThree(s: State, a: Action, b: Action, c: Action)
    ensures Exec(s, [a, b, c]) == Step(Step(Step(s, a), b), c)
  {
    hide Step;
    var run, s1, s2 := [a, b, c], Step(s, a), Step(Step(s, a), b);
    assert run[1..] == [b, c] && [b, c][1..] == [c] && [c][1..] == [];
    assert Exec(s1, [b, c]) == Exec(s2, [c]);
    assert Exec(s2, [c]) == Exec(Step(s2, c), []);
  }

  /** It is lost for good: however often it is delivered again, it is recorded and never sent. */
  lemma KilledIsLost(rows: set<string>, n: Notification, later: seq<Action>)
    requires n.dedupeKey != "" && n.dedupeKey !in rows && NoPrune(later)
    ensures var s := Exec(Exec(Start(rows), KilledRun(n)), later);
            n.dedupeKey in s.rows && TimesSent(s.posts, n.dedupeKey) == 0
  {
    var key := n.dedupeKey;
    var s := Exec(Start(rows), KilledRun(n));
    KilledState(rows, n);
    StartIsBalanced(rows, key);
    EveryInsertIsAccountedFor(Start(rows), KilledRun(n), key);
    EveryInsertIsAccountedFor(s, later, key);
    RowsOnlyGrow(s, later);
    LossesAddUp(s, later, key);
  }

  /** A crash is every thread killed: it is always possible, and leaves rows and sends as they are. */
  lemma {:induction false} Crash(s: State) returns (actions: seq<Action>)
    ensures forall a :: a in actions ==> a.Kill?
    ensures var s' := Exec(s, actions);
            s'.threads == map[] && s'.rows == s.rows && s'.posts == s.posts
    decreases |s.threads|
  {
    if s.threads == map[] {
      actions := [];
    } else {
      var t :| t in s.threads;
      var s1 := Step(s, Kill(t));
      assert s1.threads.Keys == s.threads.Keys - {t};
      var rest := Crash(s1);
      actions := [Kill(t)] + rest;
      assert actions[1..] == rest;
    }
  }
}
