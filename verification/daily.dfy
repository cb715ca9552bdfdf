/** When the digest goes out: the window, once per day, and the minutes before midnight where it fails. */
module Daily {
  import opened Base
  import opened Store
  import opened Notify
  import opened Cron
  import opened Engine
  import opened UserSettings
  import opened Text
  import Civil
  import Digest
  import UsableSettings
  import Vikunja
  import Webhook

  // ---- Every digest is decided in its window ----

  lemma TargetFacts(now: int, offset: int, hour: int, minute: int)
    requires 0 <= hour <= 23 && 0 <= minute <= 59
    ensures LocalDay(Target(now, offset, hour, minute), offset) == LocalDay(now, offset)
    ensures now < (LocalDay(now, offset) + 1) * DAY - offset * SECOND
  {
    var day, minutes := LocalDay(now, offset), hour * 60 + minute;
    assert (day * DAY + minutes * MINUTE) / DAY == day;
  }

  /** The instant is at most two hours past the given time of the day, and that day is not over, on a clock at the
      given offset. */
  predicate OnTime(now: int, offset: int, hour: int, minute: int, day: int) {
    && 0 <= now - (day * 86400 + hour * 3600 + minute * 60 - offset) * 1_000_000_000 <= 7_200_000_000_000
    && now < ((day + 1) * 86400 - offset) * 1_000_000_000
  }

  /** A day is found due only at an instant from its send time to two hours later, and before the local
      midnight that ends the send time's date. */
  lemma DueIsOnTime(s: Settings, env: TickEnv, day: int)
    requires Decide(s, env) == Due(day)
    ensures s.digestEnabled && ZoneName(s, env).Some? && ZoneName(s, env).value in env.zones
    ensures Digest.ParseHHMM(s.digestTime).Some?
    ensures var time := Digest.ParseHHMM(s.digestTime).value;
            OnTime(env.now, env.zones[ZoneName(s, env).value], time.0, time.1, day)
  {
    hide Digest.ParseHHMM;
    var offset := env.zones[ZoneName(s, env).value];
    var time := Digest.ParseHHMM(s.digestTime).value;
    Digest.ParsedIsInRange(s.digestTime);
    TargetFacts(env.now, offset, time.0, time.1);
  }

  /** In plain numbers: a tick finds a day due exactly if the settings can be read and are enabled, the zone is
      known, the stored time parses, the instant is no earlier than that time of the day and at most two hours
      (7.2 trillion nanoseconds) later, and the day is not over, all on the clock of the zone. */
  lemma DueExactly(me: int, w: World, env: TickEnv, day: int)
    ensures DueDay(me, w, env) == Some(day) <==>
            var s := SettingsOf(w.settings, me);
            && !env.settingsFail && s.digestEnabled
            && ZoneName(s, env).Some? && ZoneName(s, env).value in env.zones
            && Digest.ParseHHMM(s.digestTime).Some?
            && var offset, (hour, minute) := env.zones[ZoneName(s, env).value], Digest.ParseHHMM(s.digestTime).value;
               && 0 <= env.now - (day * 86400 + hour * 3600 + minute * 60 - offset) * 1_000_000_000
                    <= 7_200_000_000_000
               && env.now < ((day + 1) * 86400 - offset) * 1_000_000_000
  {
    hide Digest.ParseHHMM;
    var s := SettingsOf(w.settings, me);
    if && Digest.ParseHHMM(s.digestTime).Some? && ZoneName(s, env).Some? && ZoneName(s, env).value in env.zones {
      Digest.ParsedIsInRange(s.digestTime);
      DayInNumbers(env.now, env.zones[ZoneName(s, env).value], day);
    }
  }

  lemma DayInNumbers(now: int, offset: int, day: int)
    ensures LocalDay(now, offset) == day
       <==> (day * 86400 - offset) * 1_000_000_000 <= now < ((day + 1) * 86400 - offset) * 1_000_000_000
  {
    var local := now + offset * SECOND;
    assert local / DAY == day <==> day * DAY <= local < (day + 1) * DAY;
  }

  lemma DigestKeyText(user: int, day: int)
    ensures DigestKey(user, day) == "digest:" + Decimal(user) + ":" + Civil.DayText(day)
    ensures DigestKey(1, 20694) == "digest:1:2026-08-29"
  {
    hide Decimal, Civil.DayText;
    Webhook.KnownKeys();
  }

  /** So a digest goes out only on time, under the key of the day it is on time for. */
  lemma SendIsInWindow(me: int, w: World, env: TickEnv)
    requires TickSends(me, true, w, env) != []
    ensures var s := SettingsOf(w.settings, me);
            && s.digestEnabled && ZoneName(s, env).Some? && ZoneName(s, env).value in env.zones
            && Digest.ParseHHMM(s.digestTime).Some?
            && exists day :: (forall n :: n in TickSends(me, true, w, env) ==> n.dedupeKey == DigestKey(me, day))
                 && var time := Digest.ParseHHMM(s.digestTime).value;
                    OnTime(env.now, env.zones[ZoneName(s, env).value], time.0, time.1, day)
  {
    hide Digest.ParseHHMM;
    var day := DueDay(me, w, env).value;
    DueIsOnTime(SettingsOf(w.settings, me), env, day);
    assert forall n :: n in TickSends(me, true, w, env) ==> n.dedupeKey == DigestKey(me, day);
  }

  // ---- Runs under unchanged settings and a fixed offset ----

  /** tz is the user's timezone in Vikunja, empty if they never set one; offset is the one in force there. */
  datatype Config = Config(tz: string, offset: int, hhmm: string, hour: int, minute: int) {
    function Minutes(): int {
      hour * 60 + minute
    }

    /** The send instant on a local day. */
    function TargetOn(day: int): int {
      day * DAY + Minutes() * MINUTE - offset * SECOND
    }

    function Zone(): string {
      if tz == "" then "UTC" else tz
    }

    predicate Valid() {
      Digest.ParseHHMM(hhmm) == Some((hour, minute))
    }
  }

  /** The timezone may be cached already or not yet; a user without a row has the defaults. */
  predicate Steady(me: int, c: Config, w: World) {
    var s := SettingsOf(w.settings, me);
    c.Valid() && s.digestEnabled && s.digestTime == c.hhmm && (s.timezone == "" || s.timezone == c.tz)
  }

  predicate ZoneCached(me: int, w: World) {
    SettingsOf(w.settings, me).timezone != ""
  }

  /** Nothing changes the user's settings, timezone or offset, and nothing prunes; anything else may happen.
      While the timezone is not cached Vikunja gives the user's, if it answers. */
  predicate SteadyAction(me: int, c: Config, w: World, a: Action) {
    match a
    case Tick(env) =>
      && c.Zone() in env.zones && env.zones[c.Zone()] == c.offset
      && (ZoneCached(me, w) || env.upstreamTimezone == None || env.upstreamTimezone == Some(c.tz))
    case Deliver(_, _, _) => true
    case Put(user, _, _, _, _) => user != me
    case Write(write, _) => write.user != me
    case Prune(_, _) => false
  }

  predicate AllSteady(me: int, c: Config, w: World, actions: seq<Action>)
    decreases |actions|
  {
    actions == []
    || (SteadyAction(me, c, w, actions[0]) && AllSteady(me, c, Step(me, true, w, actions[0]), actions[1..]))
  }

  lemma {:induction false} OthersKeepSettings(table: SettingsTable, ws: seq<UserSettings.Write>, me: int)
    requires forall x :: x in ws ==> x.user != me
    ensures SettingsOf(ApplyAll(table, ws), me) == SettingsOf(table, me)
  {
    if ws != [] {
      assert ws[|ws| - 1] in ws;
      OthersKeepSettings(table, ws[..|ws| - 1], me);
    }
  }

  lemma SteadyStep(me: int, precheck: bool, c: Config, w: World, a: Action)
    requires Steady(me, c, w) && SteadyAction(me, c, w, a)
    ensures Steady(me, c, Step(me, precheck, w, a))
  {
    hide Evaluate, ApplyAll, PutWrites, Digest.ParseHHMM;
    if a.Put? {
      HandlersAreGuarded(a.user, a.req, a.save, a.upstream, a.cache);
      OthersKeepSettings(w.settings, PutWrites(a.user, a.req, a.save, a.upstream, a.cache), me);
    } else if a.Write? {
      OthersKeepSettings(w.settings, IfApplied(a.write, a.fault), me);
    }
  }

  /** Whether an action is a tick inside the window of a local day. */
  predicate DueAt(c: Config, a: Action, day: int) {
    && a.Tick?
    && LocalDay(a.env.now, c.offset) == day
    && c.TargetOn(day) <= a.env.now <= c.TargetOn(day) + 7_200_000_000_000
  }

  /** The tick can tell the user's zone: it is cached, or Vikunja answers. */
  predicate ZoneKnown(me: int, w: World, env: TickEnv) {
    ZoneCached(me, w) || env.upstreamTimezone.Some?
  }

  lemma DueWhenSteady(me: int, c: Config, w: World, env: TickEnv, day: int)
    requires Steady(me, c, w) && SteadyAction(me, c, w, Tick(env))
    ensures DueDay(me, w, env) == Some(day) <==>
            !env.settingsFail && ZoneKnown(me, w, env) && DueAt(c, Tick(env), day)
  {
    hide Digest.ParseHHMM;
  }

  /** Store, Vikunja and sender work and there are tasks. The timezone is asked for only until it is cached. */
  predicate Healthy(me: int, w: World, a: Action) {
    a.Tick? ==>
      && !a.env.settingsFail && !a.env.checkFails && ZoneKnown(me, w, a.env)
      && a.env.tasks.Some? && a.env.tasks.value != []
      && a.env.mark.fault == Works && a.env.finalMark.fault == Works && !a.env.sendFails
  }

  predicate AllHealthy(me: int, w: World, actions: seq<Action>)
    decreases |actions|
  {
    actions == [] || (Healthy(me, w, actions[0]) && AllHealthy(me, Step(me, true, w, actions[0]), actions[1..]))
  }

  /** How many digests of a local day have been sent. */
  function DigestsFor(me: int, w: World, day: int): nat {
    TimesPosted(w.posts, DigestKey(me, day))
  }

  predicate SomeDue(c: Config, actions: seq<Action>, day: int) {
    exists a :: a in actions && DueAt(c, a, day)
  }

  /** Once a day's key is recorded, nothing is sent under it again. */
  lemma {:induction false} RecordedStays(me: int, c: Config, w: World, actions: seq<Action>, day: int)
    requires AllSteady(me, c, w, actions) && DigestKey(me, day) in w.sent
    ensures DigestsFor(me, Run(me, true, w, actions), day) == DigestsFor(me, w, day)
    decreases |actions|
  {
    if actions != [] {
      var a := actions[0];
      assert a in actions;
      if a.Tick? {
        TickOnDay(me, true, w, a.env, day);
      } else {
        OthersOnDay(me, true, w, a, day);
      }
      RecordedStays(me, c, Step(me, true, w, a), actions[1..], day);
    }
  }

  /** A healthy action sends and records a fresh day's digest exactly if it is a tick in the day's window. */
  lemma HealthyStep(me: int, c: Config, w: World, a: Action, day: int)
    requires Steady(me, c, w) && SteadyAction(me, c, w, a) && Healthy(me, w, a)
    requires DigestKey(me, day) !in w.sent
    ensures DigestsFor(me, Step(me, true, w, a), day) == DigestsFor(me, w, day) + if DueAt(c, a, day) then 1 else 0
    ensures DigestKey(me, day) in Step(me, true, w, a).sent <==> DueAt(c, a, day)
  {
    hide Step, Steady, DigestKey, Digest.BodyFor, Digest.UrgentAt;
    if a.Tick? {
      TickOnDay(me, true, w, a.env, day);
      DueWhenSteady(me, c, w, a.env, day);
    } else {
      OthersOnDay(me, true, w, a, day);
    }
  }

  /** In a healthy run a day's digest is sent exactly once if some tick falls in the day's window, and
      otherwise not at all, whatever deliveries and other users' writes happen in between. */
  lemma {:induction false} OnceExactlyWhenDue(me: int, c: Config, w: World, actions: seq<Action>, day: int)
    requires Steady(me, c, w) && AllSteady(me, c, w, actions) && AllHealthy(me, w, actions)
    requires DigestKey(me, day) !in w.sent
    ensures DigestsFor(me, Run(me, true, w, actions), day)
         == DigestsFor(me, w, day) + if SomeDue(c, actions, day) then 1 else 0
    decreases |actions|
  {
    hide Step, Steady, SteadyAction, Healthy, DueAt, DigestKey;
    if actions != [] {
      var a, rest := actions[0], actions[1..];
      SteadyStep(me, true, c, w, a);
      HealthyStep(me, c, w, a, day);
      var w' := Step(me, true, w, a);
      assert SomeDue(c, actions, day) <==> DueAt(c, a, day) || SomeDue(c, rest, day) by {
        assert actions == [a] + rest;
      }
      if DueAt(c, a, day) {
        RecordedStays(me, c, w', rest, day);
      } else {
        OnceExactlyWhenDue(me, c, w', rest, day);
      }
    }
  }

  /** No tick in a day's window, no digest for it, whatever else fails or works. */
  lemma {:induction false} NothingWhenNeverDue(me: int, c: Config, w: World, actions: seq<Action>, day: int)
    requires Steady(me, c, w) && AllSteady(me, c, w, actions)
    requires forall a :: a in actions ==> !DueAt(c, a, day)
    ensures DigestsFor(me, Run(me, true, w, actions), day) == DigestsFor(me, w, day)
    decreases |actions|
  {
    if actions != [] {
      var a := actions[0];
      assert a in actions;
      SteadyStep(me, true, c, w, a);
      if a.Tick? {
        TickOnDay(me, true, w, a.env, day);
        DueWhenSteady(me, c, w, a.env, day);
      } else {
        OthersOnDay(me, true, w, a, day);
      }
      NothingWhenNeverDue(me, c, Step(me, true, w, a), actions[1..], day);
    }
  }

  // ---- Ticks at most one interval apart ----

  /** Ticks in order, each at most an interval after the one before; last is the instant before the first. */
  predicate Spaced(actions: seq<Action>, last: int)
    decreases |actions|
  {
    if actions == [] then true
    else if actions[0].Tick? then
      last <= actions[0].env.now <= last + INTERVAL && Spaced(actions[1..], actions[0].env.now)
    else Spaced(actions[1..], last)
  }

  predicate TicksFrom(actions: seq<Action>, instant: int) {
    exists a :: a in actions && a.Tick? && a.env.now >= instant
  }

  lemma {:induction false} FirstTickFrom(c: Config, actions: seq<Action>, last: int, day: int)
    requires 0 <= c.Minutes() <= 23 * 60 + 55
    requires Spaced(actions, last) && last < c.TargetOn(day) && TicksFrom(actions, c.TargetOn(day))
    ensures SomeDue(c, actions, day)
    decreases |actions|
  {
    var a, rest := actions[0], actions[1..];
    assert actions == [a] + rest;
    if a.Tick? && a.env.now >= c.TargetOn(day) {
      assert DueAt(c, a, day);
    } else {
      FirstTickFrom(c, rest, if a.Tick? then a.env.now else last, day);
    }
  }

  /** Every local day gets exactly one digest when its send time is 23:55 or earlier, the ticks are at most
      five minutes apart and reach from before the send instant to it or beyond, and all else works. */
  lemma ExactlyOncePerDay(me: int, c: Config, w: World, actions: seq<Action>, last: int, day: int)
    requires Steady(me, c, w) && AllSteady(me, c, w, actions) && AllHealthy(me, w, actions)
    requires DigestKey(me, day) !in w.sent
    requires 0 <= c.Minutes() <= 23 * 60 + 55
    requires Spaced(actions, last) && last < c.TargetOn(day) && TicksFrom(actions, c.TargetOn(day))
    ensures DigestsFor(me, Run(me, true, w, actions), day) == DigestsFor(me, w, day) + 1
  {
    FirstTickFrom(c, actions, last, day);
    OnceExactlyWhenDue(me, c, w, actions, day);
  }

  /** A user who never saved anything and has no timezone: the defaults and UTC. */
  const NEWCOMER := Config("", 0, DEFAULT_DIGEST_TIME, 8, 0)

  function FirstMorning(day: int): TickEnv {
    TickEnv(NEWCOMER.TargetOn(day), map["UTC" := 0], false, Some(""), Works, false,
            Some([Vikunja.Task(1, "", 0, None)]), Response(Works, 0), false, Response(Works, 0))
  }

  /** For example, such a user's first digest, at eight o'clock UTC. */
  lemma NewcomerGetsDigest(me: int, day: int)
    ensures var w, actions := World(map[], map[], [], []), [Tick(FirstMorning(day))];
            && Steady(me, NEWCOMER, w) && AllSteady(me, NEWCOMER, w, actions) && AllHealthy(me, w, actions)
            && DigestsFor(me, Run(me, true, w, actions), day) == 1
  {
    hide Digest.ParseHHMM, Step, Run, DigestKey;
    var w, a := World(map[], map[], [], []), Tick(FirstMorning(day));
    UsableSettings.DefaultTimeParses();
    assert Steady(me, NEWCOMER, w) && SteadyAction(me, NEWCOMER, w, a) && Healthy(me, w, a);
    assert [a][1..] == [];
    assert a in [a] && a.env.now >= NEWCOMER.TargetOn(day);
    ExactlyOncePerDay(me, NEWCOMER, w, [a], NEWCOMER.TargetOn(day) - 1, day);
  }

  /** Two hours after the send time on a local day, in nanoseconds. */
  function WindowEnd(c: Config, day: int): int {
    (day * 86400 + c.hour * 3600 + c.minute * 60 - c.offset + 7200) * 1_000_000_000
  }

  lemma DueAtEnd(c: Config, a: Action, day: int)
    requires a.Tick? && a.env.now == WindowEnd(c, day) && 0 <= c.Minutes() < 22 * 60
    ensures DueAt(c, a, day)
  {
    DayInNumbers(a.env.now, c.offset, day);
  }

  lemma NotDueOutside(c: Config, a: Action, day: int)
    requires a.Tick? ==> a.env.now > WindowEnd(c, day) || a.env.now < WindowEnd(c, day) - 7_200_000_000_000
    ensures !DueAt(c, a, day)
  {
    hide LocalDay;
  }

  /** A healthy run with a tick exactly two hours after the send time still sends the day's digest, if that is
      before midnight, even as the only tick of the day. */
  lemma LastChance(me: int, c: Config, w: World, actions: seq<Action>, day: int)
    requires Steady(me, c, w) && AllSteady(me, c, w, actions) && AllHealthy(me, w, actions)
    requires DigestKey(me, day) !in w.sent
    requires exists a :: a in actions && a.Tick? && a.env.now == WindowEnd(c, day)
    requires 0 <= c.Minutes() < 22 * 60
    ensures DigestsFor(me, Run(me, true, w, actions), day) == DigestsFor(me, w, day) + 1
  {
    hide Steady, AllSteady, AllHealthy, DueAt, WindowEnd, Run, DigestKey;
    var a :| a in actions && a.Tick? && a.env.now == WindowEnd(c, day);
    DueAtEnd(c, a, day);
    OnceExactlyWhenDue(me, c, w, actions, day);
  }

  /** If all ticks of the day come later than that, if only by a nanosecond, or before the send time, none is
      sent. */
  lemma ChanceMissed(me: int, c: Config, w: World, actions: seq<Action>, day: int)
    requires Steady(me, c, w) && AllSteady(me, c, w, actions)
    requires forall a :: a in actions && a.Tick? ==>
               a.env.now > WindowEnd(c, day) || a.env.now < WindowEnd(c, day) - 7_200_000_000_000
    ensures DigestsFor(me, Run(me, true, w, actions), day) == DigestsFor(me, w, day)
  {
    hide Steady, AllSteady, DueAt, WindowEnd, Run, DigestKey;
    forall a | a in actions ensures !DueAt(c, a, day) {
      NotDueOutside(c, a, day);
    }
    NothingWhenNeverDue(me, c, w, actions, day);
  }

  // ---- The bound is tight ----

  /** How long after the send time the next tick comes, for ticks at a fixed phase of local time. */
  function Wait(c: Config, phase: int): int {
    (phase - c.Minutes() * MINUTE) % INTERVAL
  }

  /** The first tick from the send time on still belongs to the same day. */
  predicate Fits(c: Config, phase: int) {
    c.Minutes() * MINUTE + Wait(c, phase) < DAY
  }

  function FirstMark(c: Config, phase: int, day: int): int {
    c.TargetOn(day) + Wait(c, phase)
  }

  predicate OnPhase(c: Config, phase: int, actions: seq<Action>) {
    forall a :: a in actions && a.Tick? ==> (a.env.now + c.offset * SECOND) % INTERVAL == phase
  }

  lemma SameRemainder(x: int, r: int, m: int)
    requires x % INTERVAL == r
    ensures (r - m) % INTERVAL == (x - m) % INTERVAL
  {
    var q := x / INTERVAL;
    assert x - m == (r - m) + q * INTERVAL;
  }

  /** A day is a whole number of intervals, so it does not shift the phase. */
  lemma DayKeepsPhase(day: int, x: int)
    ensures (day * DAY + x) % INTERVAL == x % INTERVAL
  {
    assert day * DAY + x == (day * 288) * INTERVAL + x;
  }

  /** A tick on phase inside a day's window exists only if the first one from the send time on does. */
  lemma NoTickFits(c: Config, phase: int, a: Action, day: int)
    requires 0 <= c.Minutes() < 1440 && 0 <= phase < INTERVAL
    requires DueAt(c, a, day) && (a.env.now + c.offset * SECOND) % INTERVAL == phase
    ensures Fits(c, phase)
  {
    var start := c.Minutes() * MINUTE;
    var late := a.env.now - c.TargetOn(day);
    assert a.env.now + c.offset * SECOND == day * DAY + (start + late);
    assert (start + late) % INTERVAL == phase by {
      DayKeepsPhase(day, start + late);
    }
    assert Wait(c, phase) == late % INTERVAL by {
      SameRemainder(start + late, phase, start);
    }
    assert start + late < DAY by {
      assert LocalDay(a.env.now, c.offset) == day;
    }
    assert late % INTERVAL <= late;
  }

  lemma FirstMarkIsDue(c: Config, phase: int, a: Action, day: int)
    requires 0 <= c.Minutes() < 1440 && Fits(c, phase)
    requires a.Tick? && a.env.now == FirstMark(c, phase, day)
    ensures DueAt(c, a, day)
  {
    var wait := Wait(c, phase);
    assert 0 <= wait < INTERVAL;
    assert (day * DAY + c.Minutes() * MINUTE + wait) / DAY == day;
  }

  /** With ticks at a fixed phase, a day whose first tick from the send time on is in the run gets its
      digest if and only if that tick comes before midnight; otherwise no day ever gets one. */
  lemma PhaseDecides(me: int, c: Config, w: World, actions: seq<Action>, phase: int, day: int)
    requires Steady(me, c, w) && AllSteady(me, c, w, actions) && AllHealthy(me, w, actions)
    requires 0 <= c.Minutes() < 1440 && 0 <= phase < INTERVAL && OnPhase(c, phase, actions)
    requires DigestKey(me, day) !in w.sent
    requires exists a :: a in actions && a.Tick? && a.env.now == FirstMark(c, phase, day)
    ensures DigestsFor(me, Run(me, true, w, actions), day) == DigestsFor(me, w, day) + if Fits(c, phase) then 1 else 0
  {
    OnceExactlyWhenDue(me, c, w, actions, day);
    if Fits(c, phase) {
      var a :| a in actions && a.Tick? && a.env.now == FirstMark(c, phase, day);
      FirstMarkIsDue(c, phase, a, day);
    } else {
      NeverFits(me, c, w, actions, phase, day);
    }
  }

  /** If the first tick from the send time on always comes after midnight, no day ever gets a digest. */
  lemma NeverFits(me: int, c: Config, w: World, actions: seq<Action>, phase: int, day: int)
    requires Steady(me, c, w) && AllSteady(me, c, w, actions)
    requires 0 <= c.Minutes() < 1440 && 0 <= phase < INTERVAL && OnPhase(c, phase, actions)
    requires !Fits(c, phase)
    ensures DigestsFor(me, Run(me, true, w, actions), day) == DigestsFor(me, w, day)
  {
    forall a | a in actions ensures !DueAt(c, a, day) {
      if DueAt(c, a, day) {
        NoTickFits(c, phase, a, day);
      }
    }
    NothingWhenNeverDue(me, c, w, actions, day);
  }

  lemma LateNeverFits(c: Config)
    requires 23 * 60 + 56 <= c.Minutes() < 1440
    ensures !Fits(c, 0)
  {
    assert Wait(c, 0) == DAY - c.Minutes() * MINUTE;
  }

  /** A send time works at every phase exactly up to 23:55. */
  lemma SafeSendTimes(c: Config)
    requires 0 <= c.Minutes() < 1440
    ensures (forall phase :: 0 <= phase < INTERVAL ==> Fits(c, phase)) <==> c.Minutes() <= 23 * 60 + 55
  {
    if c.Minutes() > 23 * 60 + 55 {
      LateNeverFits(c);
    }
  }

  /** With ticks on exact five-minute marks, a send time from 23:56 to 23:59 never fires on any day,
      however well everything else works. */
  lemma LastMinutesNeverFire(me: int, c: Config, w: World, actions: seq<Action>, day: int)
    requires Steady(me, c, w) && AllSteady(me, c, w, actions)
    requires 23 * 60 + 56 <= c.Minutes() < 1440 && OnPhase(c, 0, actions)
    ensures DigestsFor(me, Run(me, true, w, actions), day) == DigestsFor(me, w, day)
  {
    LateNeverFits(c);
    NeverFits(me, c, w, actions, 0, day);
  }

  // ---- Consecutive digests ----

  predicate IsDigest(me: int, p: Post, day: int) {
    p.n.dedupeKey == DigestKey(me, day)
  }

  /** The one Send call an action may make: a tick's is for its due day, which was not recorded before and
      is afterwards; a delivery's is for no day at all. */
  lemma NewPost(me: int, w: World, a: Action) returns (p: Option<Post>)
    ensures Step(me, true, w, a).posts == w.posts + if p.Some? then [p.value] else []
    ensures p.Some? && a.Tick? ==>
              && DueDay(me, w, a.env).Some? && p.value.at == a.env.now
              && IsDigest(me, p.value, DueDay(me, w, a.env).value)
              && DigestKey(me, DueDay(me, w, a.env).value) !in w.sent
              && DigestKey(me, DueDay(me, w, a.env).value) in Step(me, true, w, a).sent
    ensures p.Some? && !a.Tick? ==> forall day :: !IsDigest(me, p.value, day)
  {
    var w' := Step(me, true, w, a);
    p := None;
    assert w.posts + [] == w.posts;
    if a.Tick? {
      TickUnfolds(me, true, w, a.env);
      var sends := TickSends(me, true, w, a.env);
      if sends != [] {
        p := Some(Post(a.env.now, me, sends[0]));
        assert Posted(a.env.now, me, sends) == [p.value];
      }
    } else if a.Deliver? {
      var ns := Webhook.Build(a.ev);
      Webhook.BuildIsKeyed(a.ev);
      DispatchAtMostOne(w.sent, ns, a.mark);
      if DispatchAll(Begin(w.sent), Batch(ns, a.mark)).sends != [] {
        p := Some(Post(a.mark.at * SECOND, a.user, ns[0]));
        assert Posted(a.mark.at * SECOND, a.user, ns) == [p.value];
        forall day ensures !IsDigest(me, p.value, day) {
          Webhook.KeyFaithful(Webhook.PrintOf(a.ev).value, Webhook.Digest(me, day));
        }
      }
    }
  }

  /** Tick instants never decrease. */
  predicate InOrder(actions: seq<Action>, clock: int)
    decreases |actions|
  {
    if actions == [] then true
    else if actions[0].Tick? then clock <= actions[0].env.now && InOrder(actions[1..], actions[0].env.now)
    else InOrder(actions[1..], clock)
  }

  const GAP := 22 * 60 * MINUTE

  /** A digest sent is recorded, was on time, and lies in the past. */
  ghost predicate Past(me: int, c: Config, sent: SentTable, p: Post, clock: int) {
    forall day :: IsDigest(me, p, day) ==>
      DigestKey(me, day) in sent && c.TargetOn(day) <= p.at <= c.TargetOn(day) + WINDOW && p.at <= clock
  }

  /** Of two digests, q is for a later day and went out at least 22 hours after p. */
  ghost predicate Apart(me: int, p: Post, q: Post) {
    forall day, later :: IsDigest(me, p, day) && IsDigest(me, q, later) ==> day < later && q.at - p.at >= GAP
  }

  ghost predicate AllPast(me: int, c: Config, w: World, clock: int) {
    forall p :: p in w.posts ==> Past(me, c, w.sent, p, clock)
  }

  ghost predicate AllApart(me: int, posts: seq<Post>) {
    forall i, j :: 0 <= i < j < |posts| ==> Apart(me, posts[i], posts[j])
  }

  lemma SentStays(me: int, c: Config, w: World, a: Action, day: int)
    requires SteadyAction(me, c, w, a) && DigestKey(me, day) in w.sent
    ensures DigestKey(me, day) in Step(me, true, w, a).sent
  {
    if a.Tick? {
      TickOnDay(me, true, w, a.env, day);
    } else {
      OthersOnDay(me, true, w, a, day);
    }
  }

  /** Two instants in the windows of different days, in order. */
  lemma WindowsApart(c: Config, day: int, at: int, later: int, at': int)
    requires c.TargetOn(day) <= at <= c.TargetOn(day) + WINDOW
    requires c.TargetOn(later) <= at' <= c.TargetOn(later) + WINDOW
    requires at <= at' && day != later
    ensures day < later && at' - at >= GAP
  {
    assert c.TargetOn(later) - c.TargetOn(day) == (later - day) * DAY;
  }

  lemma PastStays(me: int, c: Config, w: World, a: Action, p: Post, clock: int, clock': int)
    requires SteadyAction(me, c, w, a) && Past(me, c, w.sent, p, clock) && clock <= clock'
    ensures Past(me, c, Step(me, true, w, a).sent, p, clock')
  {
    forall day | IsDigest(me, p, day) ensures DigestKey(me, day) in Step(me, true, w, a).sent {
      SentStays(me, c, w, a, day);
    }
  }

  /** A tick's digest is on time, and apart from every digest before it. */
  lemma NewDigestIsApart(me: int, c: Config, w: World, env: TickEnv, due: int, p: Post, q: Post, clock: int)
    requires Steady(me, c, w) && SteadyAction(me, c, w, Tick(env)) && DueDay(me, w, env) == Some(due)
    requires q.at == env.now && IsDigest(me, q, due) && DigestKey(me, due) !in w.sent
    requires Past(me, c, w.sent, p, clock) && clock <= env.now
    ensures Apart(me, p, q)
  {
    DueWhenSteady(me, c, w, env, due);
    forall day, later | IsDigest(me, p, day) && IsDigest(me, q, later)
      ensures day < later && q.at - p.at >= GAP
    {
      DigestKeysDiffer(me, later, due);
      WindowsApart(c, day, p.at, due, q.at);
    }
  }

  lemma NewDigestIsPast(me: int, c: Config, w: World, env: TickEnv, due: int, q: Post)
    requires Steady(me, c, w) && SteadyAction(me, c, w, Tick(env)) && DueDay(me, w, env) == Some(due)
    requires q.at == env.now && IsDigest(me, q, due)
    requires DigestKey(me, due) in Step(me, true, w, Tick(env)).sent
    ensures Past(me, c, Step(me, true, w, Tick(env)).sent, q, env.now)
  {
    DueWhenSteady(me, c, w, env, due);
    forall day | IsDigest(me, q, day) ensures day == due {
      DigestKeysDiffer(me, day, due);
    }
  }

  function ClockAfter(a: Action, clock: int): int {
    if a.Tick? then a.env.now else clock
  }

  lemma SpacedStep(me: int, c: Config, w: World, a: Action, clock: int)
    requires Steady(me, c, w) && SteadyAction(me, c, w, a) && clock <= ClockAfter(a, clock)
    requires AllPast(me, c, w, clock) && AllApart(me, w.posts)
    ensures AllPast(me, c, Step(me, true, w, a), ClockAfter(a, clock))
    ensures AllApart(me, Step(me, true, w, a).posts)
  {
    var w' := Step(me, true, w, a);
    var q := NewPost(me, w, a);
    forall p | p in w'.posts ensures Past(me, c, w'.sent, p, ClockAfter(a, clock)) {
      if p in w.posts {
        PastStays(me, c, w, a, p, clock, ClockAfter(a, clock));
      } else if a.Tick? {
        NewDigestIsPast(me, c, w, a.env, DueDay(me, w, a.env).value, p);
      }
    }
    if q.Some? {
      forall p | p in w.posts ensures Apart(me, p, q.value) {
        if a.Tick? {
          NewDigestIsApart(me, c, w, a.env, DueDay(me, w, a.env).value, p, q.value, clock);
        }
      }
    }
  }

  /** Under unchanged settings and a fixed offset, whatever fails on the way, consecutive digests are
      decided at least 22 hours apart and under strictly increasing days. */
  lemma {:induction false} DigestsAreSpaced(me: int, c: Config, w: World, actions: seq<Action>, clock: int)
    requires Steady(me, c, w) && AllSteady(me, c, w, actions) && InOrder(actions, clock)
    requires AllPast(me, c, w, clock) && AllApart(me, w.posts)
    ensures AllApart(me, Run(me, true, w, actions).posts)
    decreases |actions|
  {
    if actions != [] {
      var a := actions[0];
      assert a in actions;
      SpacedStep(me, c, w, a, clock);
      SteadyStep(me, true, c, w, a);
      DigestsAreSpaced(me, c, Step(me, true, w, a), actions[1..], ClockAfter(a, clock));
    }
  }
}
