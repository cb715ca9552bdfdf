/** The companion's tables (internal/store) and the statements that read and write them.
    Each SQL statement is one atomic step; a statement's fault is a parameter. */
module Store {
  import opened Base

  const DEFAULT_DIGEST_ENABLED := true
  const DEFAULT_DIGEST_TIME := "08:00"

  /** One row of user_settings. */
  datatype Settings = Settings(digestEnabled: bool, digestTime: string, timezone: string)

  const DEFAULTS := Settings(DEFAULT_DIGEST_ENABLED, DEFAULT_DIGEST_TIME, "")

  /** One row of webhooks; the ciphertext and the comma-separated events are stored as text. */
  datatype WebhookRow = WebhookRow(secretEnc: string, events: string, lastDeliveryAt: Option<int>)

  /** One line of the list AllWebhookSecrets loads. */
  datatype WebhookSecret = WebhookSecret(user: int, secretEnc: string)

  /** notifications_sent: dedupe key to the second it was recorded. */
  type SentTable = map<string, int>
  type SettingsTable = map<int, Settings>
  type WebhookTable = map<int, WebhookRow>

  /** INSERT ... ON CONFLICT(dedupe_key) DO NOTHING. */
  function Inserted(sent: SentTable, key: string, at: int): SentTable {
    if key in sent then sent else sent[key := at]
  }

  function Marked(sent: SentTable, key: string, r: Response): SentTable {
    if r.fault == FailsUnapplied then sent else Inserted(sent, key, r.at)
  }

  /** DELETE ... WHERE sent_at < now - days; a negative day count makes the bound NULL. */
  function Pruned(sent: SentTable, now: int, days: int): SentTable {
    if days < 0 then sent
    else map key | key in sent && sent[key] >= now - days * 86400 :: sent[key]
  }

  /** The stored row, or the defaults. */
  function SettingsOf(table: SettingsTable, user: int): Settings {
    if user in table then table[user] else DEFAULTS
  }

  function WithDigest(table: SettingsTable, user: int, enabled: bool, hhmm: string): SettingsTable {
    table[user := Settings(enabled, hhmm, if user in table then table[user].timezone else "")]
  }

  function WithTimezone(table: SettingsTable, user: int, tz: string): SettingsTable {
    table[user := if user in table then table[user].(timezone := tz)
                  else Settings(DEFAULT_DIGEST_ENABLED, DEFAULT_DIGEST_TIME, tz)]
  }

  function LastDelivery(table: WebhookTable, user: int): Option<int> {
    if user in table then table[user].lastDeliveryAt else None
  }

  /** The INSERT branch leaves last_delivery_at null; the UPDATE branch does not touch it. */
  function WithWebhook(table: WebhookTable, user: int, secretEnc: string, events: string): WebhookTable {
    table[user := WebhookRow(secretEnc, events, LastDelivery(table, user))]
  }

  function Touched(table: WebhookTable, user: int, at: int): WebhookTable {
    if user in table then table[user := table[user].(lastDeliveryAt := Some(at))] else table
  }

  /** webhooks.secret_enc by user. */
  function SecretsOf(table: WebhookTable): map<int, string> {
    map user | user in table :: table[user].secretEnc
  }

  /** The rows of a table in any order. */
  predicate Lists(rows: seq<WebhookSecret>, table: map<int, string>) {
    && (forall row :: row in rows ==> row.user in table && table[row.user] == row.secretEnc)
    && (forall user :: user in table ==> WebhookSecret(user, table[user]) in rows)
  }

  class DB {
    var sent: SentTable
    var settings: SettingsTable
    var webhooks: WebhookTable

    constructor ()
      ensures sent == map[] && settings == map[] && webhooks == map[]
    {
      sent, settings, webhooks := map[], map[], map[];
    }

    /** isNew tells a caller to send; on an error the row may or may not be there. */
    method MarkSent(key: string, r: Response) returns (isNew: bool, err: bool)
      modifies this`sent
      ensures err <==> r.fault != Works
      ensures isNew <==> !err && key !in old(sent)
      ensures sent == Marked(old(sent), key, r)
    {
      isNew := false;
      err := r.fault != Works;
      if r.fault != FailsUnapplied {
        if key !in sent {
          sent := sent[key := r.at];
          isNew := !err;
        }
      }
    }

    method NotificationSent(key: string, fails: bool) returns (found: bool, err: bool)
      ensures err <==> fails
      ensures found <==> !fails && key in sent
      ensures found ==> forall r: Response :: Marked(sent, key, r) == sent
      ensures !found && !err ==> forall r: Response :: r.fault == Works ==> Marked(sent, key, r) != sent
    {
      if fails {
        return false, true;
      }
      found, err := key in sent, false;
    }

    method PruneSentBefore(now: int, days: int) returns (removed: int)
      modifies this`sent
      ensures sent == Pruned(old(sent), now, days)
      ensures removed == |old(sent)| - |sent| >= 0
      ensures forall key :: key in old(sent) && key !in sent ==> old(sent)[key] + days * 86400 < now
    {
      var before := sent;
      sent := Pruned(sent, now, days);
      removed := |before| - |sent|;
      assert sent.Keys <= before.Keys;
      SubsetSize(sent.Keys, before.Keys);
    }

    method UserSettings(user: int, fails: bool) returns (s: Option<Settings>)
      ensures s == if fails then None else Some(SettingsOf(settings, user))
    {
      if fails {
        return None;
      }
      var row := DEFAULTS;
      if user in settings {
        row := settings[user];
      }
      s := Some(row);
    }

    method PutDigestSettings(user: int, enabled: bool, hhmm: string, fault: Fault) returns (err: bool)
      modifies this`settings
      ensures err <==> fault != Works
      ensures settings == if fault == FailsUnapplied then old(settings)
                          else WithDigest(old(settings), user, enabled, hhmm)
    {
      if fault != FailsUnapplied {
        if user in settings {
          settings := settings[user := settings[user].(digestEnabled := enabled, digestTime := hhmm)];
        } else {
          settings := settings[user := Settings(enabled, hhmm, "")];
        }
      }
      err := fault != Works;
    }

    method SetUserTimezone(user: int, tz: string, fault: Fault) returns (err: bool)
      modifies this`settings
      ensures err <==> fault != Works
      ensures settings == if fault == FailsUnapplied then old(settings)
                          else WithTimezone(old(settings), user, tz)
    {
      if fault != FailsUnapplied {
        if user in settings {
          settings := settings[user := settings[user].(timezone := tz)];
        } else {
          settings := settings[user := DEFAULTS.(timezone := tz)];
        }
      }
      err := fault != Works;
    }

    method UpsertWebhook(user: int, secretEnc: string, events: string, fault: Fault) returns (err: bool)
      modifies this`webhooks
      ensures err <==> fault != Works
      ensures fault == FailsUnapplied ==> webhooks == old(webhooks)
      ensures fault != FailsUnapplied ==>
                && webhooks.Keys == old(webhooks).Keys + {user}
                && webhooks[user].secretEnc == secretEnc && webhooks[user].events == events
                && webhooks[user].lastDeliveryAt == LastDelivery(old(webhooks), user)
      ensures forall u :: u in old(webhooks) && u != user ==> webhooks[u] == old(webhooks)[u]
      ensures webhooks == if fault == FailsUnapplied then old(webhooks)
                          else WithWebhook(old(webhooks), user, secretEnc, events)
    {
      if fault != FailsUnapplied {
        if user in webhooks {
          webhooks := webhooks[user := webhooks[user].(secretEnc := secretEnc, events := events)];
        } else {
          webhooks := webhooks[user := WebhookRow(secretEnc, events, None)];
        }
      }
      err := fault != Works;
    }

    /** order is the order the query happens to yield its rows in: any listing of the table's users. */
    method AllWebhookSecrets(order: seq<int>, fails: bool) returns (out: Option<seq<WebhookSecret>>)
      requires forall user :: user in order <==> user in webhooks
      ensures out.None? <==> fails
      ensures out.Some? ==> Lists(out.value, SecretsOf(webhooks)) && |out.value| == |order|
      ensures out.Some? ==> forall i :: 0 <= i < |order| ==> out.value[i].user == order[i]
    {
      if fails {
        return None;
      }
      var rows: seq<WebhookSecret> := [];
      for i := 0 to |order|
        invariant |rows| == i
        invariant forall j :: 0 <= j < i ==> order[j] in webhooks
        invariant forall j :: 0 <= j < i ==> rows[j] == WebhookSecret(order[j], webhooks[order[j]].secretEnc)
      {
        assert forall user :: user in order <==> user in webhooks;
        assert order[i] in order && order[i] in webhooks;
        rows := rows + [WebhookSecret(order[i], webhooks[order[i]].secretEnc)];
      }
      forall user | user in webhooks ensures WebhookSecret(user, webhooks[user].secretEnc) in rows {
        var i :| 0 <= i < |order| && order[i] == user;
        assert rows[i] in rows;
      }
      out := Some(rows);
    }

    method TouchWebhookDelivery(user: int, r: Response) returns (err: bool)
      modifies this`webhooks
      ensures err <==> r.fault != Works
      ensures webhooks.Keys == old(webhooks).Keys
      ensures forall u :: u in webhooks ==>
                && webhooks[u].secretEnc == old(webhooks)[u].secretEnc && webhooks[u].events == old(webhooks)[u].events
                && webhooks[u].lastDeliveryAt == if u == user && r.fault != FailsUnapplied then Some(r.at)
                                                 else old(webhooks)[u].lastDeliveryAt
      ensures webhooks == if r.fault == FailsUnapplied then old(webhooks) else Touched(old(webhooks), user, r.at)
    {
      if r.fault != FailsUnapplied && user in webhooks {
        webhooks := webhooks[user := webhooks[user].(lastDeliveryAt := Some(r.at))];
      }
      err := r.fault != Works;
    }
  }

  lemma {:induction false} SubsetSize<T>(a: set<T>, b: set<T>)
    requires a <= b
    ensures |a| <= |b|
  {
    assert a + (b - a) == b;
  }
}
