/** What the settings handler's checks guarantee over whole runs of the engine, and what happens without them. */
module UsableSettings {
  import opened Base
  import opened Text
  import opened Store
  import opened UserSettings
  import opened Cron
  import opened Engine
  import Digest
  import Webhook

  predicate TimesParse(table: SettingsTable) {
    forall user :: user in table ==> Digest.ParseHHMM(table[user].digestTime).Some?
  }

  lemma DefaultTimeParses()
    ensures Digest.ParseHHMM(DEFAULT_DIGEST_TIME) == Some((8, 0))
  {
    Digest.ParsePrinted(8, 0);
    assert Padded(8, 2) == "08" by {
      assert Digits(8) == "8" && Zeros(1) == "0";
    }
    assert Padded(0, 2) == "00" by {
      assert Digits(0) == "0" && Zeros(1) == "0";
    }
    assert Digest.PrintHHMM(8, 0) == "08:00";
  }

  lemma {:induction false} GuardedWrites(table: SettingsTable, ws: seq<UserSettings.Write>, user: int)
    requires TimesParse(table) && forall w :: w in ws ==> Guarded(w)
    ensures TimesParse(ApplyAll(table, ws))
    ensures SettingsOf(table, user).timezone != "" ==> SettingsOf(ApplyAll(table, ws), user).timezone != ""
  {
    hide Digest.ParseHHMM;
    if ws != [] {
      assert Guarded(ws[|ws| - 1]);
      DefaultTimeParses();
      GuardedWrites(table, ws[..|ws| - 1], user);
    }
  }

  lemma UsableStep(me: int, w: World, a: Action, user: int)
    requires TimesParse(w.settings) && !a.Write?
    ensures TimesParse(Step(me, true, w, a).settings)
    ensures SettingsOf(w.settings, user).timezone != ""
        ==> SettingsOf(Step(me, true, w, a).settings, user).timezone != ""
  {
    hide Digest.ParseHHMM, Evaluate, ApplyAll, PutWrites;
    DefaultTimeParses();
    if a.Put? {
      HandlersAreGuarded(a.user, a.req, a.save, a.upstream, a.cache);
      GuardedWrites(w.settings, PutWrites(a.user, a.req, a.save, a.upstream, a.cache), user);
    }
  }

  /** Over every run in which settings are only written by the handler and by the cron's own caching: every
      stored time parses, so no tick ever stops at ParseHHMM, and a timezone once known never becomes empty
      again. Nothing is assumed of the requests. */
  lemma {:induction false} SettingsStayUsable(me: int, w: World, actions: seq<Action>, user: int)
    requires TimesParse(w.settings) && forall a :: a in actions ==> !a.Write?
    ensures var w' := Run(me, true, w, actions);
            && TimesParse(w'.settings)
            && (SettingsOf(w.settings, user).timezone != "" ==> SettingsOf(w'.settings, user).timezone != "")
            && (forall env :: Evaluate(me, w'.sent, w'.settings, env, true).outcome != BadTime)
    decreases |actions|
  {
    if actions == [] {
      forall env ensures Evaluate(me, w.sent, w.settings, env, true).outcome != BadTime {
        DefaultTimeParses();
        BadTimeExactly(me, w, env);
      }
    } else {
      assert actions[0] in actions;
      UsableStep(me, w, actions[0], user);
      SettingsStayUsable(me, Step(me, true, w, actions[0]), actions[1..], user);
    }
  }

  /** What a tick does to the settings: it caches Vikunja's timezone exactly if the user is enabled, none is
      stored, Vikunja gives one, and the write takes effect. It changes nothing else, and no other user. */
  lemma TickCachesZone(me: int, w: World, env: TickEnv, user: int)
    ensures var s, w' := SettingsOf(w.settings, me), Step(me, true, w, Tick(env));
            && (!env.settingsFail && s.digestEnabled && s.timezone == "" && env.upstreamTimezone.Some?
                && env.upstreamTimezone.value != "" && env.cacheTimezone != FailsUnapplied ==>
                  SettingsOf(w'.settings, me) == s.(timezone := env.upstreamTimezone.value))
            && (env.settingsFail || !s.digestEnabled || s.timezone != "" || env.upstreamTimezone.None?
                || env.upstreamTimezone.value == "" || env.cacheTimezone == FailsUnapplied ==>
                  w'.settings == w.settings)
            && (user != me ==> SettingsOf(w'.settings, user) == SettingsOf(w.settings, user))
  {
    hide Evaluate, Decide;
  }

  /** A stored time that does not parse stops exactly the ticks of an enabled user with a known zone. */
  lemma BadTimeExactly(me: int, w: World, env: TickEnv)
    ensures var s := SettingsOf(w.settings, me);
            Evaluate(me, w.sent, w.settings, env, true).outcome == BadTime <==>
              && !env.settingsFail && s.digestEnabled && Digest.ParseHHMM(s.digestTime).None?
              && ZoneName(s, env).Some? && ZoneName(s, env).value in env.zones
  {
    hide Digest.ParseHHMM, DigestKey;
  }

  predicate LeavesDigestAlone(me: int, a: Action) {
    match a
    case Put(user, _, _, _, _) => user != me
    case Write(write, _) => write.DigestWrite? ==> write.user != me
    case _ => true
  }

  lemma {:induction false} DigestFieldsStay(table: SettingsTable, ws: seq<UserSettings.Write>, me: int)
    requires forall w :: w in ws ==> w.user != me || w.ZoneWrite?
    ensures SettingsOf(ApplyAll(table, ws), me).digestTime == SettingsOf(table, me).digestTime
  {
    if ws != [] {
      assert ws[|ws| - 1] in ws;
      DigestFieldsStay(table, ws[..|ws| - 1], me);
    }
  }

  lemma TimeStays(me: int, w: World, a: Action)
    requires LeavesDigestAlone(me, a)
    ensures SettingsOf(Step(me, true, w, a).settings, me).digestTime == SettingsOf(w.settings, me).digestTime
  {
    hide Evaluate, ApplyAll, PutWrites;
    if a.Put? {
      HandlersAreGuarded(a.user, a.req, a.save, a.upstream, a.cache);
      DigestFieldsStay(w.settings, PutWrites(a.user, a.req, a.save, a.upstream, a.cache), me);
    } else if a.Write? {
      DigestFieldsStay(w.settings, IfApplied(a.write, a.fault), me);
    }
  }

  /** So the check is needed: once a time is stored that does not parse, whatever it is, no tick queries,
      records or sends anything for any day until the user saves another. */
  lemma {:induction false} UncheckedTimeStopsTicks(me: int, w: World, actions: seq<Action>, day: int)
    requires Digest.ParseHHMM(SettingsOf(w.settings, me).digestTime).None?
    requires forall a :: a in actions ==> LeavesDigestAlone(me, a)
    ensures var w' := Run(me, true, w, actions);
            && w'.fetches == w.fetches
            && TimesPosted(w'.posts, DigestKey(me, day)) == TimesPosted(w.posts, DigestKey(me, day))
            && (DigestKey(me, day) in w'.sent ==> DigestKey(me, day) in w.sent)
    decreases |actions|
  {
    if actions != [] {
      var a := actions[0];
      assert a in actions;
      TimeStays(me, w, a);
      if a.Tick? {
        assert DueDay(me, w, a.env) == None;
        TickOnDay(me, true, w, a.env, day);
        TickUnfolds(me, true, w, a.env);
      } else {
        OthersOnDay(me, true, w, a, day);
      }
      UncheckedTimeStopsTicks(me, Step(me, true, w, a), actions[1..], day);
    }
  }
}
