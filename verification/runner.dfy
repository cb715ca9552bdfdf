/** internal/digest's Runner: the morning-digest cron, evaluated once per tick. Times are nanoseconds
    since 1970 in UTC, offsets are seconds, and days are numbered in local time. */
module Cron {
  import opened Base
  import opened Store
  import opened Notify
  import Vikunja
  import Digest
  import Webhook

  const SECOND := 1_000_000_000
  const MINUTE := 60 * SECOND
  const DAY := 1440 * MINUTE

  const INTERVAL := 5 * MINUTE
  const WINDOW := 120 * MINUTE

  /** Everything one tick learns from outside: the clock, the zone database (name to the offset in
      force), what Vikunja answers, and how each store statement goes. */
  datatype TickEnv = TickEnv(
    now: int,
    zones: map<string, int>,
    settingsFail: bool,
    upstreamTimezone: Option<string>,
    cacheTimezone: Fault,
    checkFails: bool,
    tasks: Option<seq<Vikunja.Task>>,
    mark: Response,
    sendFails: bool,
    finalMark: Response)

  datatype Outcome =
    | SettingsUnread | Disabled | TimezoneUnread | UnknownZone | BadTime | OutsideWindow
    | CheckFailed | AlreadySent | FetchFailed | DispatchFailed | FinalMarkFailed | Evaluated

  function LocalDay(now: int, offset: int): int {
    (now + offset * SECOND) / DAY
  }

  /** time.Date on the local date of now: the instant the clock shows hour:minute that day. */
  function Target(now: int, offset: int, hour: int, minute: int): int {
    LocalDay(now, offset) * DAY + (hour * 60 + minute) * MINUTE - offset * SECOND
  }

  function DigestKey(user: int, day: int): string {
    Webhook.Key(Webhook.Digest(user, day))
  }

  // ---- location: the user's timezone, asked of Vikunja while it is unknown ----

  function ZoneName(s: Settings, env: TickEnv): Option<string> {
    if s.timezone != "" then Some(s.timezone)
    else if env.upstreamTimezone.None? then None
    else if env.upstreamTimezone.value == "" then Some("UTC")
    else env.upstreamTimezone
  }

  function AfterLocation(table: SettingsTable, user: int, env: TickEnv): SettingsTable {
    if SettingsOf(table, user).timezone == "" && env.upstreamTimezone.Some? && env.upstreamTimezone.value != ""
       && env.cacheTimezone != FailsUnapplied
    then WithTimezone(table, user, env.upstreamTimezone.value)
    else table
  }

  // ---- the decision ----

  datatype Decision = Skip(why: Outcome) | Due(day: int)

  function Decide(s: Settings, env: TickEnv): Decision {
    if !s.digestEnabled then Skip(Disabled)
    else
      var tz := ZoneName(s, env);
      if tz.None? then Skip(TimezoneUnread)
      else if tz.value !in env.zones then Skip(UnknownZone)
      else
        var offset := env.zones[tz.value];
        match Digest.ParseHHMM(s.digestTime)
        case None => Skip(BadTime)
        case Some((hour, minute)) =>
          var target := Target(env.now, offset, hour, minute);
          if env.now < target || env.now > target + WINDOW then Skip(OutsideWindow)
          else Due(LocalDay(env.now, offset))
  }

  // ---- serving a due day ----

  /** What a tick did: the new table, the sends, whether it asked for tasks, and how it ended. */
  datatype Effect = Effect(sent: SentTable, sends: seq<Notification>, asked: bool, outcome: Outcome)

  /** precheck is true in the code; false is the same cron without its NotificationSent query. */
  function Serve(sent: SentTable, key: string, env: TickEnv, precheck: bool): Effect {
    if precheck && env.checkFails then Effect(sent, [], false, CheckFailed)
    else if precheck && key in sent then Effect(sent, [], false, AlreadySent)
    else if env.tasks.None? then Effect(sent, [], true, FetchFailed)
    else
      var d := DispatchAll(Begin(sent), Batch(Digest.Briefing(env.tasks.value, key), env.mark));
      if d.failed then Effect(d.sent, d.sends, true, DispatchFailed)
      else
        Effect(Marked(d.sent, key, env.finalMark), d.sends, true,
               if env.finalMark.fault != Works then FinalMarkFailed else Evaluated)
  }

  /** One evaluation, from reading the settings to its end. */
  function Evaluate(user: int, sent: SentTable, settings: SettingsTable, env: TickEnv, precheck: bool): Effect {
    if env.settingsFail then Effect(sent, [], false, SettingsUnread)
    else
      match Decide(SettingsOf(settings, user), env)
      case Skip(why) => Effect(sent, [], false, why)
      case Due(day) => Serve(sent, DigestKey(user, day), env, precheck)
  }

  function SettingsAfter(user: int, settings: SettingsTable, env: TickEnv): SettingsTable {
    if env.settingsFail || !SettingsOf(settings, user).digestEnabled then settings
    else AfterLocation(settings, user, env)
  }

  /** The cron's view of the world: the two tables and everything sent. */
  datatype CronState = CronState(sent: SentTable, settings: SettingsTable, posts: seq<(int, Notification)>)

  function Ticked(user: int, st: CronState, env: TickEnv): CronState {
    var e := Evaluate(user, st.sent, st.settings, env, true);
    CronState(e.sent, SettingsAfter(user, st.settings, env), st.posts + To(user, e.sends))
  }

  function AllTicked(user: int, st: CronState, envs: seq<TickEnv>): CronState {
    if envs == [] then st else Ticked(user, AllTicked(user, st, envs[..|envs| - 1]), envs[|envs| - 1])
  }

  /** The same without the dispatcher's loop: a briefing is at most one notification. */
  lemma ServeUnfolds(sent: SentTable, key: string, env: TickEnv, precheck: bool)
    requires key != "" && env.tasks.Some? && !(precheck && (env.checkFails || key in sent))
    ensures var e := Serve(sent, key, env, precheck);
            var briefing := Digest.Briefing(env.tasks.value, key);
            if briefing == [] || (key in sent && env.mark.fault == Works) then
              e.sends == [] && e.sent == Marked(sent, key, env.finalMark)
            else if env.mark.fault != Works then
              e.sends == [] && e.sent == Marked(sent, key, env.mark)
            else
              e.sends == briefing && e.sent == sent[key := env.mark.at]
  {
    var briefing := Digest.Briefing(env.tasks.value, key);
    DispatchAtMostOne(sent, briefing, env.mark);
  }

  class Runner {
    const store: DB
    const dispatch: Dispatcher
    const userID: int
    const token: string
    const enabled: bool

    constructor (store: DB, dispatch: Dispatcher, token: string, userID: int, enabled: bool)
      ensures this.store == store && this.dispatch == dispatch && this.userID == userID
      ensures this.token == token && this.enabled == enabled
    {
      this.store, this.dispatch, this.userID := store, dispatch, userID;
      this.token, this.enabled := token, enabled;
    }

    method Location(s: Settings, env: TickEnv) returns (zone: Option<int>, why: Outcome)
      requires s == SettingsOf(store.settings, userID)
      modifies store`settings
      ensures store.settings == AfterLocation(old(store.settings), userID, env)
      ensures zone.Some? <==> ZoneName(s, env).Some? && ZoneName(s, env).value in env.zones
      ensures zone.Some? ==> zone.value == env.zones[ZoneName(s, env).value]
      ensures zone.None? ==> why == if ZoneName(s, env).None? then TimezoneUnread else UnknownZone
    {
      why := Evaluated;
      var tz := s.timezone;
      if tz == "" {
        if env.upstreamTimezone.None? {
          return None, TimezoneUnread;
        }
        tz := env.upstreamTimezone.value;
        if tz != "" {
          var _ := store.SetUserTimezone(userID, tz, env.cacheTimezone);
        }
      }
      if tz == "" {
        tz := "UTC";
      }
      if tz !in env.zones {
        return None, UnknownZone;
      }
      zone := Some(env.zones[tz]);
    }

    ghost function State(): CronState
      reads store, dispatch.sender
    {
      CronState(store.sent, store.settings, dispatch.sender.posts)
    }

    /** Run, up to the cancellation of its context: one evaluation at once and one per ticker event. */
    method Run(envs: seq<TickEnv>)
      requires dispatch.dedupe == store
      modifies store`sent, store`settings, dispatch.sender
      ensures !enabled || token == "" || userID == 0 ==> State() == old(State())
      ensures enabled && token != "" && userID != 0 ==> State() == AllTicked(userID, old(State()), envs)
      ensures old(dispatch.sender.posts) <= dispatch.sender.posts
      ensures forall i :: |old(dispatch.sender.posts)| <= i < |dispatch.sender.posts| ==>
                dispatch.sender.posts[i].0 == userID
    {
      if !enabled || token == "" || userID == 0 {
        return;
      }
      ghost var start := State();
      for i := 0 to |envs|
        invariant State() == AllTicked(userID, start, envs[..i])
        invariant start.posts <= dispatch.sender.posts
        invariant forall k :: |start.posts| <= k < |dispatch.sender.posts| ==> dispatch.sender.posts[k].0 == userID
      {
        assert envs[..i + 1][..i] == envs[..i];
        var _ := Process(envs[i]);
      }
      assert envs[..|envs|] == envs;
    }

    method Process(env: TickEnv) returns (outcome: Outcome)
      requires dispatch.dedupe == store
      modifies store`sent, store`settings, dispatch.sender
      ensures State() == Ticked(userID, old(State()), env)
      ensures old(dispatch.sender.posts) <= dispatch.sender.posts
      ensures var sends := Evaluate(userID, old(store.sent), old(store.settings), env, true).sends;
              && |dispatch.sender.posts| == |old(dispatch.sender.posts)| + |sends|
              && forall i :: 0 <= i < |sends| ==>
                   dispatch.sender.posts[|old(dispatch.sender.posts)| + i] == (userID, sends[i])
      ensures outcome == Evaluate(userID, old(store.sent), old(store.settings), env, true).outcome
    {
      assert dispatch.sender.posts + To(userID, []) == dispatch.sender.posts;
      var loaded := store.UserSettings(userID, env.settingsFail);
      if loaded.None? {
        return SettingsUnread;
      }
      var s := loaded.value;
      if !s.digestEnabled {
        return Disabled;
      }
      var zone, why := Location(s, env);
      if zone.None? {
        return why;
      }
      var time := Digest.ParseHHMM(s.digestTime);
      if time.None? {
        return BadTime;
      }
      var target := Target(env.now, zone.value, time.value.0, time.value.1);
      if env.now < target || env.now > target + WINDOW {
        return OutsideWindow;
      }
      var key := DigestKey(userID, LocalDay(env.now, zone.value));
      assert Decide(s, env) == Due(LocalDay(env.now, zone.value));
      outcome := ServeDay(key, env);
    }

    /** From the pre-check to the final mark. */
    method ServeDay(key: string, env: TickEnv) returns (outcome: Outcome)
      requires dispatch.dedupe == store
      modifies store`sent, dispatch.sender
      ensures var e := Serve(old(store.sent), key, env, true);
              && outcome == e.outcome && store.sent == e.sent
              && dispatch.sender.posts == old(dispatch.sender.posts) + To(userID, e.sends)
    {
      assert dispatch.sender.posts + To(userID, []) == dispatch.sender.posts;
      var sent, checkErr := store.NotificationSent(key, env.checkFails);
      if checkErr {
        return CheckFailed;
      }
      if sent {
        return AlreadySent;
      }
      if env.tasks.None? {
        return FetchFailed;
      }
      var notifs := Digest.Build(env.tasks.value, key);
      if |notifs| > 0 {
        var err := dispatch.Dispatch(userID, Batch(notifs, env.mark), _ => env.sendFails);
        if err {
          return DispatchFailed;
        }
      }
      var _, markErr := store.MarkSent(key, env.finalMark);
      outcome := if markErr then FinalMarkFailed else Evaluated;
    }
  }
}
