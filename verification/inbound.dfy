/** internal/companion's webhook handlers, one call at a time. */
module Companion {
  import opened Base
  import opened Store
  import opened Notify
  import opened Secrets
  import opened Senders
  import Webhook

  /** webhook.Parse on a verified body. */
  datatype Parsed = Event(ev: Webhook.Event) | Unsupported | Malformed

  class Api {
    const store: DB
    const dispatch: Dispatcher
    const decrypt: Decrypt
    const sign: Sign
    const events: string

    constructor (store: DB, dispatch: Dispatcher, decrypt: Decrypt, sign: Sign, events: string)
      ensures this.store == store && this.dispatch == dispatch && this.events == events
      ensures this.decrypt == decrypt && this.sign == sign
    {
      this.store, this.dispatch, this.decrypt, this.sign, this.events := store, dispatch, decrypt, sign, events;
    }

    /** newSecret and secretEnc are what NewSecret and Encrypt would yield; secretEnc is None if encrypting
        fails. The call nobody overlaps: the stored secret, or a new one that is then stored. */
    method EnsureWebhookSecret(user: int, lookupFails: bool, newSecret: string, secretEnc: Option<string>, fault: Fault)
      returns (secret: Option<string>)
      requires secretEnc.Some? ==> decrypt(secretEnc.value) == Some(newSecret)
      modifies store`webhooks
      ensures lookupFails ==> secret == None && store.webhooks == old(store.webhooks)
      ensures !lookupFails && user in old(store.webhooks) ==>
                store.webhooks == old(store.webhooks) && secret == decrypt(old(store.webhooks)[user].secretEnc)
      ensures secret.Some? ==> user in store.webhooks && decrypt(store.webhooks[user].secretEnc) == secret
      ensures forall u :: u in old(store.webhooks) ==>
                u in store.webhooks && store.webhooks[u] == old(store.webhooks)[u]
      ensures store.webhooks.Keys <= old(store.webhooks).Keys + {user}
      ensures !lookupFails && user !in old(store.webhooks) ==>
                && (secret == Some(newSecret) <==> secretEnc.Some? && fault == Works)
                && (user in store.webhooks <==> secretEnc.Some? && fault != FailsUnapplied)
                && (user in store.webhooks ==>
                      store.webhooks[user] == WebhookRow(secretEnc.value, events, None))
    {
      if lookupFails {
        return None;
      }
      if user in store.webhooks {
        return decrypt(store.webhooks[user].secretEnc);
      }
      if secretEnc.None? {
        return None;
      }
      var err := store.UpsertWebhook(user, secretEnc.value, events, fault);
      secret := if err then None else Some(newSecret);
    }

    /** The order of decisions: size, signature, then the touch, the parse, and last the dispatch. Before a
        matching signature nothing at all is written; the notifications go to the owner of the secret. */
    method InboundWebhook(tooLarge: bool, body: string, sig: string, order: seq<int>, secretsFail: bool,
                          touch: Response, parsed: Parsed, mark: Response, sendFails: bool)
      returns (status: int, ghost sender: Option<int>)
      requires dispatch.dedupe == store
      requires forall user :: user in order <==> user in store.webhooks
      modifies store`webhooks, store`sent, dispatch.sender
      ensures status in {200, 400, 401, 413, 500}
      ensures status == 413 <==> tooLarge
      ensures status == 401 <==> !tooLarge && sender == None
      ensures sender.Some? ==> sig != "" && exists secret ::
                && sender.value in old(store.webhooks)
                && decrypt(old(store.webhooks)[sender.value].secretEnc) == Some(secret)
                && Verify(sign, body, sig, secret)
      ensures sender == None && !tooLarge && !secretsFail ==> forall user :: user in old(store.webhooks) ==>
                !Accepts(decrypt, sign, WebhookSecret(user, old(store.webhooks)[user].secretEnc), body, sig)
      ensures sender == None ==>
                store.webhooks == old(store.webhooks) && store.sent == old(store.sent)
                && dispatch.sender.posts == old(dispatch.sender.posts)
      ensures sender.Some? ==>
                && store.webhooks == (if touch.fault == FailsUnapplied then old(store.webhooks)
                                      else Touched(old(store.webhooks), sender.value, touch.at))
                && (status == 400 <==> parsed.Malformed?)
                && var ns := if parsed.Event? then Webhook.Build(parsed.ev) else [];
                   var d := DispatchAll(Notify.Begin(old(store.sent)), Batch(ns, mark));
                   && store.sent == d.sent && (status == 500 <==> d.failed)
                   && old(dispatch.sender.posts) <= dispatch.sender.posts
                   && |dispatch.sender.posts| == |old(dispatch.sender.posts)| + |d.sends|
                   && forall i :: 0 <= i < |d.sends| ==>
                        dispatch.sender.posts[|old(dispatch.sender.posts)| + i] == (sender.value, d.sends[i])
    {
      hide Webhook.Build, Touched, DispatchAll, Verify, Accepts;
      sender := None;
      if tooLarge {
        return 413, None;
      }
      var user, matched := MatchSender(body, sig, order, secretsFail);
      if !matched {
        return 401, None;
      }
      sender := Some(user);
      status := HandleVerified(user, touch, parsed, mark, sendFails);
    }

    /** matchSecret over the stored secrets, in the order the query yields them. */
    method MatchSender(body: string, sig: string, order: seq<int>, fails: bool) returns (user: int, matched: bool)
      requires forall u :: u in order <==> u in store.webhooks
      ensures matched ==> sig != "" && user in store.webhooks && exists secret ::
                decrypt(store.webhooks[user].secretEnc) == Some(secret) && Verify(sign, body, sig, secret)
      ensures !matched && !fails ==> forall u :: u in store.webhooks ==>
                !Accepts(decrypt, sign, WebhookSecret(u, store.webhooks[u].secretEnc), body, sig)
    {
      var rows := store.AllWebhookSecrets(order, fails);
      user, matched := MatchSecret(decrypt, sign, rows, body, sig);
      if !matched && rows.Some? {
        assert forall u :: u in store.webhooks ==>
          WebhookSecret(u, SecretsOf(store.webhooks)[u]) in rows.value;
      }
    }

    /** From the touch on: a delivery whose sender is known. */
    method HandleVerified(user: int, touch: Response, parsed: Parsed, mark: Response, sendFails: bool)
      returns (status: int)
      requires dispatch.dedupe == store
      modifies store`webhooks, store`sent, dispatch.sender
      ensures status in {200, 400, 500}
      ensures store.webhooks == if touch.fault == FailsUnapplied then old(store.webhooks)
                                else Touched(old(store.webhooks), user, touch.at)
      ensures status == 400 <==> parsed.Malformed?
      ensures var ns := if parsed.Event? then Webhook.Build(parsed.ev) else [];
              var d := DispatchAll(Notify.Begin(old(store.sent)), Batch(ns, mark));
              && store.sent == d.sent && (status == 500 <==> d.failed)
              && old(dispatch.sender.posts) <= dispatch.sender.posts
              && |dispatch.sender.posts| == |old(dispatch.sender.posts)| + |d.sends|
              && forall i :: 0 <= i < |d.sends| ==>
                   dispatch.sender.posts[|old(dispatch.sender.posts)| + i] == (user, d.sends[i])
    {
      hide Webhook.Build, Touched;
      assert dispatch.sender.posts + To(user, []) == dispatch.sender.posts;
      var _ := store.TouchWebhookDelivery(user, touch);
      if parsed.Unsupported? {
        return 200;
      }
      if parsed.Malformed? {
        return 400;
      }
      var notifications := Webhook.Build(parsed.ev);
      if |notifications| > 0 {
        var err := dispatch.Dispatch(user, Batch(notifications, mark), _ => sendFails);
        if err {
          return 500;
        }
      }
      status := 200;
    }
  }
}
