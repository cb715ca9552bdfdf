/** What notifications_sent and webhooks hold after any sequence of statements. */
module TableHistory {
  import opened Base
  import opened Store

  /** A statement on notifications_sent. */
  datatype SentOp = Mark(key: string, r: Response) | Prune(now: int, days: int)

  function AfterOps(ops: seq<SentOp>): SentTable {
    if ops == [] then map[]
    else
      match ops[|ops| - 1]
      case Mark(key, r) => Marked(AfterOps(ops[..|ops| - 1]), key, r)
      case Prune(now, days) => Pruned(AfterOps(ops[..|ops| - 1]), now, days)
  }

  /** The prune leaves a row stamped at the given second. */
  predicate Spares(op: SentOp, at: int) {
    op.Prune? && op.days >= 0 ==> op.now - op.days * 86400 <= at
  }

  /** Statement i recorded the key while it was not there, and no prune since has reached its stamp. */
  predicate RecordedBy(ops: seq<SentOp>, key: string, i: nat)
    requires i < |ops|
  {
    && ops[i].Mark? && ops[i].key == key && ops[i].r.fault != FailsUnapplied && key !in AfterOps(ops[..i])
    && forall j :: i < j < |ops| ==> Spares(ops[j], ops[i].r.at)
  }

  lemma {:induction false} RecordingStays(ops: seq<SentOp>, key: string, i: nat)
    requires i < |ops| && RecordedBy(ops, key, i)
    ensures key in AfterOps(ops) && AfterOps(ops)[key] == ops[i].r.at
  {
    var init := ops[..|ops| - 1];
    if i < |init| {
      assert init[..i] == ops[..i];
      RecordingStays(init, key, i);
      assert Spares(ops[|ops| - 1], ops[i].r.at);
    }
  }

  lemma {:induction false} RecordingFound(ops: seq<SentOp>, key: string) returns (i: nat)
    requires key in AfterOps(ops)
    ensures i < |ops| && RecordedBy(ops, key, i)
  {
    var init, last := ops[..|ops| - 1], ops[|ops| - 1];
    if key in AfterOps(init) {
      i := RecordingFound(init, key);
      RecordingStays(init, key, i);
      assert init[..i] == ops[..i];
    } else {
      i := |init|;
    }
  }

  /** NotificationSent answers for a key, after any marks, failed marks and prunes: yes exactly if a mark that
      took effect found it absent and no prune since reached that mark's stamp. A repeated mark neither
      renews the stamp nor saves the row. */
  lemma RecordedExactly(ops: seq<SentOp>, key: string)
    ensures key in AfterOps(ops) <==> exists i :: 0 <= i < |ops| && RecordedBy(ops, key, i)
    ensures forall i :: 0 <= i < |ops| && RecordedBy(ops, key, i) ==>
              key in AfterOps(ops) && AfterOps(ops)[key] == ops[i].r.at
  {
    if key in AfterOps(ops) {
      var i := RecordingFound(ops, key);
    }
    forall i | 0 <= i < |ops| && RecordedBy(ops, key, i)
      ensures key in AfterOps(ops) && AfterOps(ops)[key] == ops[i].r.at
    {
      RecordingStays(ops, key, i);
    }
  }

  /** A statement on webhooks. */
  datatype WebhookOp = Upsert(user: int, secretEnc: string, events: string) | Touch(user: int, at: int)

  function AfterWebhookOps(table: WebhookTable, ops: seq<WebhookOp>): WebhookTable {
    if ops == [] then table
    else
      var before := AfterWebhookOps(table, ops[..|ops| - 1]);
      match ops[|ops| - 1]
      case Upsert(user, secretEnc, events) => WithWebhook(before, user, secretEnc, events)
      case Touch(user, at) => Touched(before, user, at)
  }

  function LastUpsert(ops: seq<WebhookOp>, user: int): Option<(string, string)> {
    if ops == [] then None
    else
      var op := ops[|ops| - 1];
      if op.Upsert? && op.user == user then Some((op.secretEnc, op.events)) else LastUpsert(ops[..|ops| - 1], user)
  }

  /** The last touch that had a row to stamp; known says whether there was one at the start. */
  function LastTouch(ops: seq<WebhookOp>, user: int, known: bool): Option<int> {
    if ops == [] then None
    else
      var op, init := ops[|ops| - 1], ops[..|ops| - 1];
      if op.Touch? && op.user == user && (known || LastUpsert(init, user).Some?) then Some(op.at)
      else LastTouch(init, user, known)
  }

  /** After any upserts and touches a user has a row exactly if they had one or an upsert made one. It holds the
      secret and events of its last upsert and the time of the last touch since it came to be: neither
      statement disturbs the other's fields, or another user's row. */
  lemma {:induction false} WebhooksHoldLastWrites(table: WebhookTable, ops: seq<WebhookOp>, user: int)
    ensures var after := AfterWebhookOps(table, ops);
            && (user in after <==> user in table || LastUpsert(ops, user).Some?)
            && (user in after && LastUpsert(ops, user).Some? ==>
                  (after[user].secretEnc, after[user].events) == LastUpsert(ops, user).value)
            && (user in after && LastUpsert(ops, user).None? ==>
                  after[user].secretEnc == table[user].secretEnc && after[user].events == table[user].events)
            && LastDelivery(after, user) ==
               if LastTouch(ops, user, user in table).Some? then LastTouch(ops, user, user in table)
               else LastDelivery(table, user)
  {
    if ops != [] {
      WebhooksHoldLastWrites(table, ops[..|ops| - 1], user);
    }
  }
}
