/** User settings: two partial upserts over one table behave like a total map with independent fields,
    and the handlers' checks keep every stored value usable. */
module UserSettings {
  import opened Base
  import opened Store
  import Digest

  /** One statement that took effect: PutDigestSettings or SetUserTimezone. */
  datatype Write =
    | DigestWrite(user: int, enabled: bool, hhmm: string)
    | ZoneWrite(user: int, tz: string)

  function Apply(table: SettingsTable, w: Write): SettingsTable {
    match w
    case DigestWrite(user, enabled, hhmm) => WithDigest(table, user, enabled, hhmm)
    case ZoneWrite(user, tz) => WithTimezone(table, user, tz)
  }

  function ApplyAll(table: SettingsTable, ws: seq<Write>): SettingsTable {
    if ws == [] then table else Apply(ApplyAll(table, ws[..|ws| - 1]), ws[|ws| - 1])
  }

  // ---- A total map with independent fields ----

  /** The last write of a kind to a user, if any. */
  function LastDigest(ws: seq<Write>, user: int): Option<(bool, string)> {
    if ws == [] then None
    else
      var w := ws[|ws| - 1];
      if w.DigestWrite? && w.user == user then Some((w.enabled, w.hhmm)) else LastDigest(ws[..|ws| - 1], user)
  }

  function LastZone(ws: seq<Write>, user: int): Option<string> {
    if ws == [] then None
    else
      var w := ws[|ws| - 1];
      if w.ZoneWrite? && w.user == user then Some(w.tz) else LastZone(ws[..|ws| - 1], user)
  }

  /** After any writes each field of each user, stored or not, holds its own last write, or what it read
      before if there was none. */
  lemma {:induction false} FieldsHoldLastWrites(table: SettingsTable, ws: seq<Write>, user: int)
    ensures var before, after := SettingsOf(table, user), SettingsOf(ApplyAll(table, ws), user);
            && (match LastDigest(ws, user)
                case None => after.digestEnabled == before.digestEnabled && after.digestTime == before.digestTime
                case Some((enabled, hhmm)) => after.digestEnabled == enabled && after.digestTime == hhmm)
            && (match LastZone(ws, user)
                case None => after.timezone == before.timezone
                case Some(tz) => after.timezone == tz)
  {
    if ws != [] {
      FieldsHoldLastWrites(table, ws[..|ws| - 1], user);
    }
  }

  function Digests(ws: seq<Write>): seq<Write> {
    if ws == [] then []
    else Digests(ws[..|ws| - 1]) + if ws[|ws| - 1].DigestWrite? then [ws[|ws| - 1]] else []
  }

  function Zones(ws: seq<Write>): seq<Write> {
    if ws == [] then []
    else Zones(ws[..|ws| - 1]) + if ws[|ws| - 1].ZoneWrite? then [ws[|ws| - 1]] else []
  }

  lemma ApplySnoc(table: SettingsTable, ws: seq<Write>, w: Write)
    ensures ApplyAll(table, ws + [w]) == Apply(ApplyAll(table, ws), w)
  {
    assert (ws + [w])[..|ws|] == ws;
  }

  /** The two statements commute, on the whole table and for any users. */
  lemma WritesCommute(table: SettingsTable, d: Write, z: Write)
    requires d.DigestWrite? && z.ZoneWrite?
    ensures Apply(Apply(table, d), z) == Apply(Apply(table, z), d)
  {
    assert d.user != z.user ==>
      table[d.user := Apply(table, d)[d.user]][z.user := Apply(table, z)[z.user]]
      == table[z.user := Apply(table, z)[z.user]][d.user := Apply(table, d)[d.user]];
  }

  lemma {:induction false} DigestPastZones(table: SettingsTable, d: Write, zs: seq<Write>)
    requires d.DigestWrite? && forall z :: z in zs ==> z.ZoneWrite?
    ensures ApplyAll(Apply(table, d), zs) == Apply(ApplyAll(table, zs), d)
  {
    if zs != [] {
      DigestPastZones(table, d, zs[..|zs| - 1]);
      WritesCommute(ApplyAll(table, zs[..|zs| - 1]), d, zs[|zs| - 1]);
    }
  }

  /** However the two kinds of write are interleaved, the table is the one left by the digest writes
      followed by the timezone writes, each kind in its own order. */
  lemma {:induction false} InterleavingDoesNotMatter(table: SettingsTable, ws: seq<Write>)
    ensures ApplyAll(table, ws) == ApplyAll(ApplyAll(table, Digests(ws)), Zones(ws))
    ensures forall z :: z in Zones(ws) ==> z.ZoneWrite?
  {
    if ws != [] {
      var init, w := ws[..|ws| - 1], ws[|ws| - 1];
      InterleavingDoesNotMatter(table, init);
      if w.DigestWrite? {
        assert Zones(ws) == Zones(init);
        ApplySnoc(table, Digests(init), w);
        DigestPastZones(ApplyAll(table, Digests(init)), w, Zones(init));
      } else {
        assert Digests(ws) == Digests(init);
        ApplySnoc(ApplyAll(table, Digests(init)), Zones(init), w);
      }
    }
  }

  // ---- The handlers ----

  /** PUT /companion/v1/settings, as decoded. */
  datatype Request = Malformed | WithoutDigest | PutDigest(enabled: bool, time: string)

  /** Writes the handlers let through. */
  predicate Guarded(w: Write) {
    match w
    case DigestWrite(_, _, hhmm) => Digest.ParseHHMM(hhmm).Some?
    case ZoneWrite(_, tz) => tz != ""
  }

  function IfApplied(w: Write, fault: Fault): seq<Write> {
    if fault == FailsUnapplied then [] else [w]
  }

  /** The writes cacheTimezone makes, given Vikunja's answer. */
  function ZoneWrites(user: int, upstream: Option<string>, fault: Fault): seq<Write> {
    if upstream.None? || upstream.value == "" then [] else IfApplied(ZoneWrite(user, upstream.value), fault)
  }

  /** The writes putSettings makes: nothing for a bad request, and no timezone after a failed save. */
  function PutWrites(user: int, req: Request, save: Fault, upstream: Option<string>, cache: Fault): seq<Write> {
    if !req.PutDigest? || Digest.ParseHHMM(req.time).None? then []
    else
      IfApplied(DigestWrite(user, req.enabled, req.time), save)
      + if save != Works then [] else ZoneWrites(user, upstream, cache)
  }

  lemma HandlersAreGuarded(user: int, req: Request, save: Fault, upstream: Option<string>, cache: Fault)
    ensures forall w :: w in PutWrites(user, req, save, upstream, cache) ==> Guarded(w) && w.user == user
  {
  }

  lemma ApplyFew(table: SettingsTable, w: Write, z: Write)
    ensures ApplyAll(table, []) == table && ApplyAll(table, [w]) == Apply(table, w)
    ensures ApplyAll(table, [w] + [z]) == Apply(Apply(table, w), z)
  {
    hide Apply;
    ApplySnoc(table, [], w);
    ApplySnoc(table, [w], z);
    assert [] + [w] == [w];
  }

  /** A bad request writes nothing; a saved one is followed by the timezone's writes. */
  lemma PutEffect(table: SettingsTable, user: int, req: Request, save: Fault, upstream: Option<string>, cache: Fault)
    ensures var after := ApplyAll(table, PutWrites(user, req, save, upstream, cache));
            if !req.PutDigest? || Digest.ParseHHMM(req.time).None? || save == FailsUnapplied then after == table
            else
              var saved := WithDigest(table, user, req.enabled, req.time);
              after == if save == Works then ApplyAll(saved, ZoneWrites(user, upstream, cache)) else saved
  {
    hide Digest.ParseHHMM, ApplyAll, WithDigest, WithTimezone;
    var w := if req.PutDigest? then DigestWrite(user, req.enabled, req.time) else ZoneWrite(user, "");
    var z := ZoneWrite(user, if upstream.Some? then upstream.value else "");
    ApplyFew(table, w, z);
    ApplyFew(Apply(table, w), z, z);
    var none: seq<Write> := [];
    assert [w] + none == [w] && none + none == none;
  }

  /** Caching a timezone leaves the digest fields alone. */
  lemma ZoneKeepsDigest(table: SettingsTable, user: int, upstream: Option<string>, cache: Fault)
    ensures var before := SettingsOf(table, user);
            var after := SettingsOf(ApplyAll(table, ZoneWrites(user, upstream, cache)), user);
            after.digestEnabled == before.digestEnabled && after.digestTime == before.digestTime
  {
    hide ApplyAll;
    var z := ZoneWrite(user, if upstream.Some? then upstream.value else "");
    ApplyFew(table, z, z);
  }

  class SettingsApi {
    const store: DB

    constructor (store: DB)
      ensures this.store == store
    {
      this.store := store;
    }

    method PutSettings(user: int, req: Request, save: Fault, upstream: Option<string>, cache: Fault, readFails: bool)
      returns (status: int, echo: Option<Settings>)
      modifies store`settings
      ensures store.settings == ApplyAll(old(store.settings), PutWrites(user, req, save, upstream, cache))
      ensures status == 400 <==> !req.PutDigest? || Digest.ParseHHMM(req.time).None?
      ensures status == 500 <==> status != 400 && (save != Works || readFails)
      ensures status in {200, 400, 500}
      ensures echo.Some? <==> status == 200
      ensures echo.Some? ==> echo.value == SettingsOf(store.settings, user)
      ensures echo.Some? ==> echo.value.digestEnabled == req.enabled && echo.value.digestTime == req.time
      ensures echo.Some? && upstream.Some? && upstream.value != "" && cache != FailsUnapplied ==>
                echo.value.timezone == upstream.value
      ensures status == 400 || save == FailsUnapplied ==> store.settings == old(store.settings)
      ensures status != 400 && save != FailsUnapplied ==>
                user in store.settings && store.settings[user].digestEnabled == req.enabled
                && store.settings[user].digestTime == req.time
      ensures forall u :: u in old(store.settings) && u != user ==>
                u in store.settings && store.settings[u] == old(store.settings)[u]
    {
      hide Digest.ParseHHMM, PutWrites, ApplyAll, ZoneWrites;
      PutEffect(store.settings, user, req, save, upstream, cache);
      echo := None;
      if !req.PutDigest? {
        return 400, None;
      }
      if Digest.ParseHHMM(req.time).None? {
        return 400, None;
      }
      var err := store.PutDigestSettings(user, req.enabled, req.time, save);
      if err {
        return 500, None;
      }
      ZoneKeepsDigest(store.settings, user, upstream, cache);
      CacheTimezone(user, upstream, cache);
      echo := store.UserSettings(user, readFails);
      status := if echo.None? then 500 else 200;
    }

    method CacheTimezone(user: int, upstream: Option<string>, fault: Fault)
      modifies store`settings
      ensures store.settings == ApplyAll(old(store.settings), ZoneWrites(user, upstream, fault))
      ensures upstream.None? || upstream.value == "" || fault == FailsUnapplied ==>
                store.settings == old(store.settings)
      ensures upstream.Some? && upstream.value != "" && fault != FailsUnapplied ==>
                store.settings == old(store.settings)[user :=
                  SettingsOf(old(store.settings), user).(timezone := upstream.value)]
    {
      if upstream.None? || upstream.value == "" {
        return;
      }
      ApplySnoc(store.settings, [], ZoneWrite(user, upstream.value));
      assert [] + [ZoneWrite(user, upstream.value)] == [ZoneWrite(user, upstream.value)];
      var _ := store.SetUserTimezone(user, upstream.value, fault);
    }
  }
}
