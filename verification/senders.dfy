/** internal/companion's matchSecret: the sender of a delivery is whoever's stored secret verifies it. */
module Senders {
  import opened Base
  import opened Store
  import opened Secrets

  /** webhook.Sign: body and secret to signature. */
  type Sign = (string, string) -> string

  /** webhook.Verify: equality with the expected signature, never with an empty signature or secret. */
  predicate Verify(sign: Sign, body: string, sig: string, secret: string) {
    sig != "" && secret != "" && sig == sign(body, secret)
  }

  predicate Accepts(decrypt: Decrypt, sign: Sign, row: WebhookSecret, body: string, sig: string) {
    var plain := decrypt(row.secretEnc);
    plain.Some? && Verify(sign, body, sig, plain.value)
  }

  /** matchSecret's answer: the user of the first row that accepts, or nobody if none does. */
  ghost predicate FirstMatch(decrypt: Decrypt, sign: Sign, rows: seq<WebhookSecret>, body: string, sig: string,
                             user: int, matched: bool) {
    if matched then
      exists i :: 0 <= i < |rows| && rows[i].user == user && Accepts(decrypt, sign, rows[i], body, sig) &&
                  forall j :: 0 <= j < i ==> !Accepts(decrypt, sign, rows[j], body, sig)
    else
      user == 0 && forall row :: row in rows ==> !Accepts(decrypt, sign, row, body, sig)
  }

  /** Goes through the rows, skipping those that cannot be decrypted; no rows if loading them failed. */
  method MatchSecret(decrypt: Decrypt, sign: Sign, rows: Option<seq<WebhookSecret>>, body: string, sig: string)
    returns (user: int, matched: bool)
    ensures FirstMatch(decrypt, sign, if rows.Some? then rows.value else [], body, sig, user, matched)
  {
    if sig == "" || rows.None? {
      return 0, false;
    }
    for i := 0 to |rows.value|
      invariant forall j :: 0 <= j < i ==> !Accepts(decrypt, sign, rows.value[j], body, sig)
    {
      var plain := decrypt(rows.value[i].secretEnc);
      if plain.Some? {
        if Verify(sign, body, sig, plain.value) {
          return rows.value[i].user, true;
        }
      }
    }
    user, matched := 0, false;
  }

  /** Different secrets sign this body differently, and never with an empty signature. */
  ghost predicate SignsApart(sign: Sign, body: string) {
    && (forall s, t :: sign(body, s) == sign(body, t) ==> s == t)
    && (forall s :: sign(body, s) != "")
  }

  /** Decryptable secrets of different users differ. */
  predicate DistinctSecrets(decrypt: Decrypt, table: SecretTable) {
    forall u, v :: u in table && v in table && u != v && decrypt(table[u]).Some? ==>
      decrypt(table[u]) != decrypt(table[v])
  }

  /** A signature made with some secret is accepted by exactly the rows of the user who owns it: that one
      user, in whatever order rows are listed, or nobody if no row holds the secret. */
  lemma SenderIsOwner(decrypt: Decrypt, sign: Sign, table: SecretTable, rows: seq<WebhookSecret>, body: string,
                      secret: string, row: WebhookSecret)
    requires SignsApart(sign, body) && Lists(rows, table) && row in rows
    ensures Accepts(decrypt, sign, row, body, sign(body, secret))
       <==> secret != "" && decrypt(table[row.user]) == Some(secret)
  {
    assert sign(body, secret) != "";
    var plain := decrypt(row.secretEnc);
    if plain.Some? && sign(body, secret) == sign(body, plain.value) {
      assert plain.value == secret;
    }
  }

  /** Whoever matchSecret names for a body signed with a secret is the one user holding that secret, and it
      names nobody exactly if no user holds it. */
  lemma SenderIsIdentified(decrypt: Decrypt, sign: Sign, table: SecretTable, rows: seq<WebhookSecret>, body: string,
                           secret: string, user: int, matched: bool)
    requires SignsApart(sign, body) && Lists(rows, table) && DistinctSecrets(decrypt, table) && secret != ""
    requires FirstMatch(decrypt, sign, rows, body, sign(body, secret), user, matched)
    ensures matched <==> exists u :: u in table && decrypt(table[u]) == Some(secret)
    ensures matched ==> forall u :: u in table && decrypt(table[u]) == Some(secret) <==> u == user
  {
    forall row | row in rows
      ensures Accepts(decrypt, sign, row, body, sign(body, secret)) <==> decrypt(table[row.user]) == Some(secret)
    {
      SenderIsOwner(decrypt, sign, table, rows, body, secret, row);
    }
    if matched {
      assert user in table && decrypt(table[user]) == Some(secret);
    } else {
      forall u | u in table ensures decrypt(table[u]) != Some(secret) {
        assert WebhookSecret(u, table[u]) in rows;
      }
    }
  }

  /** The table of every reachable state meets what identification needs: its rows decrypt, to non-empty
      secrets that differ from user to user. */
  lemma ReachableSecretsAreDistinct(decrypt: Decrypt, actions: seq<Action>)
    ensures var s := Run(decrypt, EMPTY, actions);
            && DistinctSecrets(decrypt, s.rows)
            && forall user :: user in s.rows ==> decrypt(s.rows[user]).Some? && decrypt(s.rows[user]).value != ""
  {
    var s := Run(decrypt, EMPTY, actions);
    ConsistentRun(decrypt, EMPTY, actions);
    forall u, v | u in s.rows && v in s.rows && u != v ensures decrypt(s.rows[u]) != decrypt(s.rows[v]) {
      var i :| 0 <= i < |s.stores| && s.stores[i] == Stored(u, decrypt(s.rows[u]).value);
      var j :| 0 <= j < |s.stores| && s.stores[j] == Stored(v, decrypt(s.rows[v]).value);
      assert i != j;
    }
  }

  /** So in every reachable state, whatever calls overlapped, failed or died, a delivery signed with the secret
      a user's row holds is attributed to that user. */
  lemma DeliveriesFindTheirOwner(decrypt: Decrypt, sign: Sign, actions: seq<Action>, rows: seq<WebhookSecret>,
                                 body: string, owner: int, user: int, matched: bool)
    requires var s := Run(decrypt, EMPTY, actions);
             && SignsApart(sign, body) && Lists(rows, s.rows) && owner in s.rows
             && decrypt(s.rows[owner]).Some?
             && FirstMatch(decrypt, sign, rows, body, sign(body, decrypt(s.rows[owner]).value), user, matched)
    ensures matched && user == owner
  {
    var s := Run(decrypt, EMPTY, actions);
    ReachableSecretsAreDistinct(decrypt, actions);
    SenderIsIdentified(decrypt, sign, s.rows, rows, body, decrypt(s.rows[owner]).value, user, matched);
  }
}
