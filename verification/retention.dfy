/** How long dedupe rows must be kept so that pruning never revives a digest. */
module Retention {
  import opened Base
  import opened Store
  import opened Notify
  import opened Cron
  import opened Engine
  import opened UserSettings
  import Digest
  import Webhook
  import Vikunja

  /** Every offset in force during the run lies in [lo, hi] seconds, and pruning keeps at least the given
      number of days. Settings, timezones and send times may change at will, and anything may fail. */
  predicate Allowed(a: Action, lo: int, hi: int, days: int) {
    match a
    case Tick(env) => forall tz :: tz in env.zones ==> lo <= env.zones[tz] <= hi
    case Prune(_, keep) => keep >= days
    case _ => true
  }

  predicate AllAllowed(actions: seq<Action>, lo: int, hi: int, days: int) {
    forall a :: a in actions ==> Allowed(a, lo, hi, days)
  }

  function DatabaseClock(a: Action, clock: int): int {
    match a
    case Tick(env) => env.now
    case Prune(now, _) => if now * SECOND > clock then now * SECOND else clock
    case _ => clock
  }

  /** One monotone clock: ticks and prunes read it in order, and a tick's inserts are stamped no earlier
      than the tick's own reading. The database reads it in whole seconds. */
  predicate Reads(a: Action, clock: int) {
    match a
    case Tick(env) => clock <= env.now && env.now / SECOND <= env.mark.at && env.now / SECOND <= env.finalMark.at
    case Prune(now, _) => clock / SECOND <= now
    case _ => true
  }

  predicate Clocked(actions: seq<Action>, clock: int)
    decreases |actions|
  {
    actions == [] || (Reads(actions[0], clock) && Clocked(actions[1..], DatabaseClock(actions[0], clock)))
  }

  /** The retention covers a day plus the spread of the offsets, to the second. */
  predicate Covers(lo: int, hi: int, days: int) {
    days * 86400 >= 86399 + (hi - lo)
  }

  /** At most one digest of the day was sent; if one was, then its row is still there, stamped no earlier
      than the day's first possible instant, or the day is over at every offset. */
  predicate Guarded(me: int, w: World, day: int, lo: int, hi: int, clock: int) {
    var key := DigestKey(me, day);
    && TimesPosted(w.posts, key) <= 1
    && (TimesPosted(w.posts, key) == 1 ==>
          || (key in w.sent && w.sent[key] >= day * 86400 - hi)
          || clock >= (day + 1) * DAY - lo * SECOND)
  }

  lemma DayBounds(now: int, offset: int, lo: int, hi: int)
    requires lo <= offset <= hi
    ensures var day := LocalDay(now, offset);
            && day * DAY - hi * SECOND <= now < (day + 1) * DAY - lo * SECOND
            && now / SECOND >= day * 86400 - hi
  {
    var day := LocalDay(now, offset);
    assert now >= (day * 86400 - hi) * SECOND;
  }

  /** A day is found due only between its first and last possible instants. */
  lemma DueWithinDay(me: int, w: World, env: TickEnv, day: int, lo: int, hi: int)
    requires Allowed(Tick(env), lo, hi, 0) && DueDay(me, w, env) == Some(day)
    ensures day * DAY - hi * SECOND <= env.now < (day + 1) * DAY - lo * SECOND
    ensures env.now / SECOND >= day * 86400 - hi
  {
    hide Digest.ParseHHMM;
    var s := SettingsOf(w.settings, me);
    DayBounds(env.now, env.zones[ZoneName(s, env).value], lo, hi);
  }

  lemma GuardedTick(me: int, w: World, env: TickEnv, day: int, lo: int, hi: int, clock: int)
    requires Allowed(Tick(env), lo, hi, 0) && Reads(Tick(env), clock)
    requires Guarded(me, w, day, lo, hi, clock)
    ensures Guarded(me, Step(me, true, w, Tick(env)), day, lo, hi, env.now)
  {
    TickOnDay(me, true, w, env, day);
    if DueDay(me, w, env) == Some(day) {
      DueWithinDay(me, w, env, day, lo, hi);
    }
  }

  lemma GuardedOther(me: int, w: World, a: Action, day: int, lo: int, hi: int, days: int, clock: int)
    requires !a.Tick? && Allowed(a, lo, hi, days) && Reads(a, clock) && Covers(lo, hi, days)
    requires Guarded(me, w, day, lo, hi, clock)
    ensures Guarded(me, Step(me, true, w, a), day, lo, hi, DatabaseClock(a, clock))
  {
    OthersOnDay(me, true, w, a, day);
    assert DAY == 86400 * SECOND;
    if a.Prune? {
      assert a.days * 86400 >= days * 86400;
    }
  }

  lemma {:induction false} CoveringRetention(me: int, w: World, actions: seq<Action>, clock: int, day: int,
                                             lo: int, hi: int, days: int)
    requires Covers(lo, hi, days) && AllAllowed(actions, lo, hi, days) && Clocked(actions, clock)
    requires Guarded(me, w, day, lo, hi, clock)
    ensures TimesPosted(Run(me, true, w, actions).posts, DigestKey(me, day)) <= 1
    decreases |actions|
  {
    if actions != [] {
      var a := actions[0];
      assert a in actions;
      if a.Tick? {
        GuardedTick(me, w, a.env, day, lo, hi, clock);
      } else {
        GuardedOther(me, w, a, day, lo, hi, days, clock);
      }
      CoveringRetention(me, Step(me, true, w, a), actions[1..], DatabaseClock(a, clock), day, lo, hi, days);
    }
  }

  // ---- The bound is exact ----

  function WitnessTick(offset: int, now: int): TickEnv {
    TickEnv(now * SECOND, map["Z" := offset], false, None, Works, false,
            Some([Vikunja.Task(1, "", 0, None)]), Response(Works, now), false, Response(Works, now))
  }

  function WitnessStart(me: int): World {
    World(map[], map[me := Settings(true, Digest.PrintHHMM(0, 0), "Z")], [], [])
  }

  /** A digest in the first second of the day at the highest offset, a prune and a move of the send time
      in the day's last second at the lowest, and another tick. */
  function WitnessRun(me: int, lo: int, hi: int, days: int): seq<Action> {
    [Tick(WitnessTick(hi, -hi)),
     Put(me, PutDigest(true, Digest.PrintHHMM(23, 59)), Works, None, Works),
     Prune(86399 - lo, days),
     Tick(WitnessTick(lo, 86399 - lo))]
  }

  lemma WitnessDue(me: int, hi: int)
    ensures DueDay(me, WitnessStart(me), WitnessTick(hi, -hi)) == Some(0)
    ensures SettingsAfter(me, WitnessStart(me).settings, WitnessTick(hi, -hi)) == WitnessStart(me).settings
  {
    hide Digest.ParseHHMM, Digest.PrintHHMM;
    Digest.ParsePrinted(0, 0);
    var now := -hi * SECOND;
    assert LocalDay(now, hi) == 0;
    assert Target(now, hi, 0, 0) == now;
  }

  lemma WitnessBriefing(hi: int, key: string)
    ensures |Digest.Briefing(WitnessTick(hi, -hi).tasks.value, key)| == 1
  {
    hide Digest.BodyFor, Digest.UrgentAt;
  }

  /** A due day not yet recorded is recorded and sent. */
  lemma FreshDay(me: int, w: World, env: TickEnv, day: int)
    requires DueDay(me, w, env) == Some(day) && DigestKey(me, day) !in w.sent
    requires !env.checkFails && env.tasks.Some? && |Digest.Briefing(env.tasks.value, DigestKey(me, day))| == 1
    requires env.mark.fault == Works && env.mark.at == env.finalMark.at
    ensures Step(me, true, w, Tick(env)).sent == w.sent[DigestKey(me, day) := env.mark.at]
    ensures TimesPosted(Step(me, true, w, Tick(env)).posts, DigestKey(me, day))
         == TimesPosted(w.posts, DigestKey(me, day)) + 1
  {
    hide Digest.BodyFor, Digest.UrgentAt, DigestKey, Step, DueDay;
    TickUnfolds(me, true, w, env);
    TickOnDay(me, true, w, env, day);
  }

  lemma WitnessFirst(me: int, hi: int)
    ensures var w := Step(me, true, WitnessStart(me), Tick(WitnessTick(hi, -hi)));
            && w.sent == map[DigestKey(me, 0) := -hi] && w.settings == WitnessStart(me).settings
            && TimesPosted(w.posts, DigestKey(me, 0)) == 1
  {
    hide Digest.Briefing, Digest.PrintHHMM, DigestKey, Evaluate, DueDay, SettingsAfter;
    var w, env := WitnessStart(me), WitnessTick(hi, -hi);
    WitnessDue(me, hi);
    WitnessBriefing(hi, DigestKey(me, 0));
    FreshDay(me, w, env, 0);
  }

  lemma WitnessTimes(lo: int)
    ensures var now := (86399 - lo) * SECOND;
            LocalDay(now, lo) == 0 && Target(now, lo, 23, 59) <= now <= Target(now, lo, 23, 59) + WINDOW
  {
    var now := (86399 - lo) * SECOND;
    assert now + lo * SECOND == 86399 * SECOND;
    assert 86399 * SECOND / DAY == 0;
  }

  lemma WitnessSecond(me: int, lo: int, w: World)
    requires w.sent == map[] && w.settings == map[me := Settings(true, Digest.PrintHHMM(23, 59), "Z")]
    ensures TimesPosted(Step(me, true, w, Tick(WitnessTick(lo, 86399 - lo))).posts, DigestKey(me, 0))
         == TimesPosted(w.posts, DigestKey(me, 0)) + 1
  {
    hide Digest.ParseHHMM, Digest.PrintHHMM, Webhook.Key;
    var env := WitnessTick(lo, 86399 - lo);
    Digest.ParsePrinted(23, 59);
    WitnessTimes(lo);
    assert DueDay(me, w, env) == Some(0);
    TickOnDay(me, true, w, env, 0);
  }

  lemma WitnessMiddle(me: int, lo: int, hi: int, days: nat, w: World)
    requires lo <= hi && !Covers(lo, hi, days)
    requires w.sent == map[DigestKey(me, 0) := -hi] && w.settings == WitnessStart(me).settings
    ensures var actions := WitnessRun(me, lo, hi, days);
            var w' := Step(me, true, Step(me, true, w, actions[1]), actions[2]);
            && w'.sent == map[] && w'.settings == map[me := Settings(true, Digest.PrintHHMM(23, 59), "Z")]
            && w'.posts == w.posts
  {
    hide Digest.ParseHHMM, Digest.PrintHHMM, DigestKey, ApplyAll;
    Digest.ParsePrinted(23, 59);
    PutEffect(w.settings, me, PutDigest(true, Digest.PrintHHMM(23, 59)), Works, None, Works);
    var z := ZoneWrite(me, "");
    ApplyFew(WithDigest(w.settings, me, true, Digest.PrintHHMM(23, 59)), z, z);
  }

  lemma WitnessSendsTwice(me: int, lo: int, hi: int, days: nat)
    requires lo <= hi && !Covers(lo, hi, days)
    ensures TimesPosted(Run(me, true, WitnessStart(me), WitnessRun(me, lo, hi, days)).posts, DigestKey(me, 0)) == 2
  {
    hide Run, Digest.PrintHHMM, Webhook.Key;
    var actions := WitnessRun(me, lo, hi, days);
    var w0 := WitnessStart(me);
    var w1 := Step(me, true, w0, actions[0]);
    WitnessFirst(me, hi);
    WitnessMiddle(me, lo, hi, days, w1);
    WitnessSecond(me, lo, Step(me, true, Step(me, true, w1, actions[1]), actions[2]));
    RunOfFour(me, w0, actions[0], actions[1], actions[2], actions[3]);
  }

  lemma TooShortRetention(me: int, lo: int, hi: int, days: nat)
    requires lo <= hi && !Covers(lo, hi, days)
    ensures var actions := WitnessRun(me, lo, hi, days);
            && AllAllowed(actions, lo, hi, days) && Clocked(actions, -hi * SECOND)
            && TimesPosted(WitnessStart(me).posts, DigestKey(me, 0)) == 0
            && TimesPosted(Run(me, true, WitnessStart(me), actions).posts, DigestKey(me, 0)) == 2
  {
    hide Run, Clocked, Digest.PrintHHMM, Webhook.Key;
    WitnessSendsTwice(me, lo, hi, days);
    WitnessClock(me, lo, hi, days);
  }

  lemma WitnessClock(me: int, lo: int, hi: int, days: nat)
    requires lo <= hi
    ensures Clocked(WitnessRun(me, lo, hi, days), -hi * SECOND)
  {
    var actions := WitnessRun(me, lo, hi, days);
    var c := (86399 - lo) * SECOND;
    assert actions[1..][0] == actions[1] && actions[1..][1..] == actions[2..];
    assert actions[2..][0] == actions[2] && actions[2..][1..] == actions[3..];
    assert actions[3..][0] == actions[3] && actions[3..][1..] == [];
    assert Clocked(actions[3..], c);
    assert Clocked(actions[2..], -hi * SECOND);
    assert Clocked(actions[1..], -hi * SECOND);
  }

  lemma RunOfFour(me: int, w: World, a: Action, b: Action, c: Action, d: Action)
    ensures Run(me, true, w, [a, b, c, d])
         == Step(me, true, Step(me, true, Step(me, true, Step(me, true, w, a), b), c), d)
  {
    hide Run, Step;
    var wa := Step(me, true, w, a);
    var wb := Step(me, true, wa, b);
    var wc := Step(me, true, wb, c);
    RunCons(me, true, w, a, [b, c, d]);
    RunCons(me, true, wa, b, [c, d]);
    RunCons(me, true, wb, c, [d]);
    RunCons(me, true, wc, d, []);
    RunNothing(me, true, Step(me, true, wc, d));
    assert [a, b, c, d] == [a] + [b, c, d] && [b, c, d] == [b] + [c, d] && [c, d] == [c] + [d] && [d] == [d] + [];
  }

  /** From any state without a digest of the day, a run of this kind ends with at most one. */
  ghost predicate AtMostOne(me: int, w: World, actions: seq<Action>, clock: int, day: int,
                            lo: int, hi: int, days: int) {
    && AllAllowed(actions, lo, hi, days) && Clocked(actions, clock)
    && TimesPosted(w.posts, DigestKey(me, day)) == 0
    ==> TimesPosted(Run(me, true, w, actions).posts, DigestKey(me, day)) <= 1
  }

  /** No run at all sends a day's digest twice. */
  ghost predicate NeverTwice(lo: int, hi: int, days: int) {
    forall me, w, actions, clock, day :: AtMostOne(me, w, actions, clock, day, lo, hi, days)
  }

  /** Pruning never revives a digest, over every run, if and only if the rows are kept for a day plus the
      spread of the offsets the user may move between (less one second). */
  lemma RetentionIsExact(lo: int, hi: int, days: nat)
    requires lo <= hi
    ensures NeverTwice(lo, hi, days) <==> Covers(lo, hi, days)
  {
    if Covers(lo, hi, days) {
      forall me, w, actions, clock, day ensures AtMostOne(me, w, actions, clock, day, lo, hi, days) {
        if && AllAllowed(actions, lo, hi, days) && Clocked(actions, clock)
           && TimesPosted(w.posts, DigestKey(me, day)) == 0 {
          CoveringRetention(me, w, actions, clock, day, lo, hi, days);
        }
      }
    } else {
      TooShortRetention(0, lo, hi, days);
      assert !AtMostOne(0, WitnessStart(0), WitnessRun(0, lo, hi, days), -hi * SECOND, 0, lo, hi, days);
    }
  }

  /** One day suffices for a fixed offset; from -12 h to +14 h it takes three, and two do not suffice. */
  lemma RetentionInDays(offset: int)
    ensures NeverTwice(offset, offset, 1) && !NeverTwice(offset, offset, 0)
    ensures NeverTwice(-12 * 3600, 14 * 3600, 3) && !NeverTwice(-12 * 3600, 14 * 3600, 2)
  {
    RetentionIsExact(offset, offset, 1);
    RetentionIsExact(offset, offset, 0);
    RetentionIsExact(-12 * 3600, 14 * 3600, 3);
    RetentionIsExact(-12 * 3600, 14 * 3600, 2);
  }
}
