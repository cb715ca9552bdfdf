/** internal/companion's webhook secrets: ensureWebhookSecret looks a user's secret up and, if there is
    none, makes and stores one, without a lock in between. */
module Secrets {
  import opened Base
  import opened Store

  /** The cipher's Decrypt: None on an undecryptable text. Encrypt is randomised, so it is modelled by
      what it guarantees: the ciphertext decrypts to the plaintext. */
  type Decrypt = string -> Option<string>

  /** webhooks.secret_enc by user. */
  type SecretTable = map<int, string>

  // ---- ensureWebhookSecret under interleaving ----

  datatype Call =
    | Looking(user: int)
    | Missed(user: int)
    | Holding(user: int, secret: string)

  /** A successful return, and an upsert that took effect. */
  datatype Returned = Returned(user: int, secret: string)
  datatype Stored = Stored(user: int, secret: string)

  /** rows is the table; the rest is in-flight calls and history: secrets ever generated, successful
      returns, and effective upserts, oldest first. */
  datatype State = State(
    rows: SecretTable,
    calls: map<nat, Call>,
    minted: set<string>,
    told: seq<Returned>,
    stores: seq<Stored>)

  datatype Action =
    | Begin(c: nat, user: int)
    | LookUp(c: nat, fails: bool)
    | Mint(c: nat, secret: string)
    | Upsert(c: nat, secretEnc: string, fault: Fault)
    | Abandon(c: nat)
    | Restart

  /** Actions that are not possible in a state leave it as it is. NewSecret never repeats a secret and never
      makes an empty one; an upsert writes a ciphertext of the secret its call holds. */
  function Step(decrypt: Decrypt, s: State, a: Action): State {
    match a
    case Begin(c, user) => if c in s.calls then s else s.(calls := s.calls[c := Looking(user)])
    case LookUp(c, fails) =>
      if c !in s.calls || !s.calls[c].Looking? then s
      else
        var user := s.calls[c].user;
        if fails then s.(calls := s.calls - {c})
        else if user !in s.rows then s.(calls := s.calls[c := Missed(user)])
        else
          (match decrypt(s.rows[user])
           case None => s.(calls := s.calls - {c})
           case Some(secret) => s.(calls := s.calls - {c}, told := s.told + [Returned(user, secret)]))
    case Mint(c, secret) =>
      if c !in s.calls || !s.calls[c].Missed? || secret in s.minted || secret == "" then s
      else s.(calls := s.calls[c := Holding(s.calls[c].user, secret)], minted := s.minted + {secret})
    case Upsert(c, secretEnc, fault) =>
      if c !in s.calls || !s.calls[c].Holding? || decrypt(secretEnc) != Some(s.calls[c].secret) then s
      else
        var Holding(user, secret) := s.calls[c];
        var gone := s.(calls := s.calls - {c});
        if fault == FailsUnapplied then gone
        else
          var stored := gone.(rows := s.rows[user := secretEnc], stores := s.stores + [Stored(user, secret)]);
          if fault == FailsApplied then stored
          else stored.(told := s.told + [Returned(user, secret)])
    case Abandon(c) => s.(calls := s.calls - {c})
    case Restart => s.(calls := map[])
  }

  function Run(decrypt: Decrypt, s: State, actions: seq<Action>): State
    decreases |actions|
  {
    if actions == [] then s else Run(decrypt, Step(decrypt, s, actions[0]), actions[1..])
  }

  /** Where each statement takes a call: a failed or undecryptable look-up, a failed upsert, giving up and a
      restart end it; a hit ends it with the stored secret; a miss goes on to mint one. */
  lemma CallsExactly(decrypt: Decrypt, s: State, c: nat, user: int)
    ensures c !in s.calls ==> Step(decrypt, s, Begin(c, user)).calls == s.calls[c := Looking(user)]
    ensures c in s.calls ==> Step(decrypt, s, Begin(c, user)) == s
    ensures Step(decrypt, s, Abandon(c)).calls == s.calls - {c} && Step(decrypt, s, Restart).calls == map[]
    ensures c in s.calls && s.calls[c] == Looking(user) ==>
              && Step(decrypt, s, LookUp(c, true)) == s.(calls := s.calls - {c})
              && Step(decrypt, s, LookUp(c, false)) ==
                 if user !in s.rows then s.(calls := s.calls[c := Missed(user)])
                 else if decrypt(s.rows[user]).None? then s.(calls := s.calls - {c})
                 else s.(calls := s.calls - {c}, told := s.told + [Returned(user, decrypt(s.rows[user]).value)])
    ensures forall secretEnc, fault ::
              (c in s.calls && s.calls[c].Holding? && decrypt(secretEnc) == Some(s.calls[c].secret)) ==>
                var s' := Step(decrypt, s, Upsert(c, secretEnc, fault));
                && s'.calls == s.calls - {c}
                && s'.rows == if fault == FailsUnapplied then s.rows else s.rows[s.calls[c].user := secretEnc]
  {
  }

  const EMPTY := State(map[], map[], {}, [], [])

  /** No call for the user is between its lookup miss and its upsert. */
  predicate NoneInBetween(s: State, user: int) {
    forall c :: c in s.calls && s.calls[c].user == user ==> s.calls[c].Looking?
  }

  /** The user's row is there and holds this secret, and nobody is about to replace it. */
  predicate Settled(decrypt: Decrypt, s: State, user: int, secret: string) {
    user in s.rows && decrypt(s.rows[user]) == Some(secret) && NoneInBetween(s, user)
  }

  /** The secrets returned for a user since some moment. */
  predicate AllReturned(told: seq<Returned>, from: nat, user: int, secret: string) {
    forall i :: from <= i < |told| && told[i].user == user ==> told[i].secret == secret
  }

  lemma SettledStep(decrypt: Decrypt, s: State, a: Action, user: int, secret: string, from: nat)
    requires Settled(decrypt, s, user, secret) && AllReturned(s.told, from, user, secret)
    ensures var s' := Step(decrypt, s, a);
            && Settled(decrypt, s', user, secret) && s'.rows[user] == s.rows[user]
            && AllReturned(s'.told, from, user, secret)
  {
  }

  /** Once a user's row is there and no call for that user is between miss and upsert, the stored secret
      never changes again, and every call that returns from then on returns it. */
  lemma {:induction false} SettledSecretsStay(decrypt: Decrypt, s: State, actions: seq<Action>,
                                              user: int, secret: string, from: nat)
    requires Settled(decrypt, s, user, secret) && AllReturned(s.told, from, user, secret)
    ensures var s' := Run(decrypt, s, actions);
            && Settled(decrypt, s', user, secret) && s'.rows[user] == s.rows[user]
            && AllReturned(s'.told, from, user, secret)
    decreases |actions|
  {
    if actions != [] {
      SettledStep(decrypt, s, actions[0], user, secret, from);
      SettledSecretsStay(decrypt, Step(decrypt, s, actions[0]), actions[1..], user, secret, from);
    }
  }

  lemma RunNothing(decrypt: Decrypt, s: State)
    ensures Run(decrypt, s, []) == s
  {
  }

  lemma RunCons(decrypt: Decrypt, s: State, a: Action, rest: seq<Action>)
    ensures Run(decrypt, s, [a] + rest) == Run(decrypt, Step(decrypt, s, a), rest)
  {
    assert ([a] + rest)[1..] == rest;
  }

  /** Of the user's calls, the given actions start only one at a time, in slot c. */
  predicate OneAtATime(actions: seq<Action>, user: int, c: nat) {
    forall a :: a in actions && a.Begin? && a.user == user ==> a.c == c
  }

  /** Before the user's row is there, only slot c works for the user and nothing has been returned; once it is,
      it is settled and all that was returned is its secret. */
  predicate Phase(decrypt: Decrypt, s: State, user: int, c: nat, from: nat) {
    if user in s.rows then
      decrypt(s.rows[user]).Some? && Settled(decrypt, s, user, decrypt(s.rows[user]).value)
      && AllReturned(s.told, from, user, decrypt(s.rows[user]).value)
    else
      (forall d :: d in s.calls && s.calls[d].user == user ==> d == c)
      && (forall i :: from <= i < |s.told| ==> s.told[i].user != user)
  }

  lemma PhaseStep(decrypt: Decrypt, s: State, a: Action, user: int, c: nat, from: nat)
    requires Phase(decrypt, s, user, c, from) && (a.Begin? && a.user == user ==> a.c == c)
    ensures Phase(decrypt, Step(decrypt, s, a), user, c, from)
  {
    if user in s.rows {
      SettledStep(decrypt, s, a, user, decrypt(s.rows[user]).value, from);
    }
  }

  lemma {:induction false} PhaseRun(decrypt: Decrypt, s: State, actions: seq<Action>, user: int, c: nat, from: nat)
    requires Phase(decrypt, s, user, c, from) && OneAtATime(actions, user, c)
    ensures Phase(decrypt, Run(decrypt, s, actions), user, c, from)
    decreases |actions|
  {
    hide Phase, Step;
    if actions != [] {
      assert actions[0] in actions;
      PhaseStep(decrypt, s, actions[0], user, c, from);
      PhaseRun(decrypt, Step(decrypt, s, actions[0]), actions[1..], user, c, from);
    }
  }

  /** If a user's calls come one at a time until one has stored a secret, every call ever returns that secret:
      whatever other users do, whatever fails, is abandoned or restarted on the way, and however the calls
      overlap afterwards. */
  lemma OneSecretWithoutOverlap(decrypt: Decrypt, s: State, first: seq<Action>, later: seq<Action>, user: int, c: nat)
    requires user !in s.rows && forall d :: d in s.calls ==> s.calls[d].user != user
    requires OneAtATime(first, user, c) && user in Run(decrypt, s, first).rows
    ensures var s1 := Run(decrypt, s, first);
            var s2 := Run(decrypt, s1, later);
            && decrypt(s1.rows[user]).Some? && user in s2.rows && s2.rows[user] == s1.rows[user]
            && AllReturned(s2.told, |s.told|, user, decrypt(s1.rows[user]).value)
  {
    hide Run;
    var s1 := Run(decrypt, s, first);
    PhaseRun(decrypt, s, first, user, c, |s.told|);
    SettledSecretsStay(decrypt, s1, later, user, decrypt(s1.rows[user]).value, |s.told|);
  }

  /** Two first calls that overlap: both miss, and each returns its own secret. */
  function Overlapping(user: int, x: string, xEnc: string, y: string, yEnc: string): seq<Action> {
    [Begin(0, user)] + ([LookUp(0, false)] + ([Begin(1, user)] + ([LookUp(1, false)] +
    ([Mint(0, x)] + ([Mint(1, y)] + ([Upsert(0, xEnc, Works)] + ([Upsert(1, yEnc, Works)] + [])))))))
  }

  lemma OverlapReturnsTwoSecrets(decrypt: Decrypt, user: int, x: string, xEnc: string, y: string, yEnc: string)
    requires x != y && x != "" && y != "" && decrypt(xEnc) == Some(x) && decrypt(yEnc) == Some(y)
    ensures var s := Run(decrypt, EMPTY, Overlapping(user, x, xEnc, y, yEnc));
            && s.told == [Returned(user, x), Returned(user, y)]
            && s.rows == map[user := yEnc]
  {
    hide Run, Step;
    BothMissed(decrypt, user,
               [Mint(0, x)] + ([Mint(1, y)] + ([Upsert(0, xEnc, Works)] + ([Upsert(1, yEnc, Works)] + []))));
    BothStore(decrypt, user, x, xEnc, y, yEnc);
  }

  lemma BothStore(decrypt: Decrypt, user: int, x: string, xEnc: string, y: string, yEnc: string)
    requires x != y && x != "" && y != "" && decrypt(xEnc) == Some(x) && decrypt(yEnc) == Some(y)
    ensures var s := Run(decrypt, EMPTY.(calls := map[0 := Missed(user), 1 := Missed(user)]),
                         [Mint(0, x)] + ([Mint(1, y)] + ([Upsert(0, xEnc, Works)] + ([Upsert(1, yEnc, Works)] + []))));
            && s.told == [Returned(user, x), Returned(user, y)]
            && s.rows == map[user := yEnc]
  {
    hide Run;
    var s4 := EMPTY.(calls := map[0 := Missed(user), 1 := Missed(user)]);
    var s5 := Step(decrypt, s4, Mint(0, x));
    var s6 := Step(decrypt, s5, Mint(1, y));
    var s7 := Step(decrypt, s6, Upsert(0, xEnc, Works));
    RunCons(decrypt, s4, Mint(0, x), [Mint(1, y)] + ([Upsert(0, xEnc, Works)] + ([Upsert(1, yEnc, Works)] + [])));
    RunCons(decrypt, s5, Mint(1, y), [Upsert(0, xEnc, Works)] + ([Upsert(1, yEnc, Works)] + []));
    RunCons(decrypt, s6, Upsert(0, xEnc, Works), [Upsert(1, yEnc, Works)] + []);
    RunCons(decrypt, s7, Upsert(1, yEnc, Works), []);
    RunNothing(decrypt, Step(decrypt, s7, Upsert(1, yEnc, Works)));
    assert s6.calls == map[0 := Holding(user, x), 1 := Holding(user, y)];
    assert s7.calls == map[1 := Holding(user, y)];
  }

  lemma BothMissed(decrypt: Decrypt, user: int, tail: seq<Action>)
    ensures Run(decrypt, EMPTY,
                [Begin(0, user)] + ([LookUp(0, false)] + ([Begin(1, user)] + ([LookUp(1, false)] + tail))))
         == Run(decrypt, EMPTY.(calls := map[0 := Missed(user), 1 := Missed(user)]), tail)
  {
    hide Run;
    var s1 := Step(decrypt, EMPTY, Begin(0, user));
    var s2 := Step(decrypt, s1, LookUp(0, false));
    var s3 := Step(decrypt, s2, Begin(1, user));
    RunCons(decrypt, EMPTY, Begin(0, user), [LookUp(0, false)] + ([Begin(1, user)] + ([LookUp(1, false)] + tail)));
    RunCons(decrypt, s1, LookUp(0, false), [Begin(1, user)] + ([LookUp(1, false)] + tail));
    RunCons(decrypt, s2, Begin(1, user), [LookUp(1, false)] + tail);
    RunCons(decrypt, s3, LookUp(1, false), tail);
    assert s2.calls == map[0 := Missed(user)];
    assert Step(decrypt, s3, LookUp(1, false)).calls == map[0 := Missed(user), 1 := Missed(user)];
  }

  // ---- Exactly when a user is told one secret ----

  /** Secrets stored, and secrets calls still hold, were minted and are not empty. */
  predicate AllMinted(s: State) {
    && (forall x :: x in s.stores ==> x.secret in s.minted && x.secret != "")
    && (forall c :: c in s.calls && s.calls[c].Holding? ==> s.calls[c].secret in s.minted && s.calls[c].secret != "")
  }

  /** No two of them are the same. */
  predicate AllDifferent(s: State) {
    && (forall i, j :: 0 <= i < j < |s.stores| ==> s.stores[i].secret != s.stores[j].secret)
    && (forall c, x :: c in s.calls && s.calls[c].Holding? && x in s.stores ==> s.calls[c].secret != x.secret)
    && (forall c, d :: c in s.calls && d in s.calls && c != d && s.calls[c].Holding? && s.calls[d].Holding? ==>
          s.calls[c].secret != s.calls[d].secret)
  }

  /** Rows decrypt to secrets stored for their user, and only such secrets were returned. */
  predicate AllStored(decrypt: Decrypt, s: State) {
    && (forall user :: user in s.rows ==>
          decrypt(s.rows[user]).Some? && Stored(user, decrypt(s.rows[user]).value) in s.stores)
    && (forall r :: r in s.told ==> Stored(r.user, r.secret) in s.stores)
  }

  predicate Consistent(decrypt: Decrypt, s: State) {
    AllMinted(s) && AllDifferent(s) && AllStored(decrypt, s)
  }

  lemma MintStep(decrypt: Decrypt, s: State, a: Action)
    requires AllMinted(s)
    ensures AllMinted(Step(decrypt, s, a))
  {
  }

  lemma DifferentStep(decrypt: Decrypt, s: State, a: Action)
    requires AllMinted(s) && AllDifferent(s)
    ensures AllDifferent(Step(decrypt, s, a))
  {
    if a.Upsert? {
      DifferentUpsert(decrypt, s, a);
    }
  }

  lemma DifferentUpsert(decrypt: Decrypt, s: State, a: Action)
    requires a.Upsert? && AllDifferent(s)
    ensures AllDifferent(Step(decrypt, s, a))
  {
    var s' := Step(decrypt, s, a);
    if s'.stores != s.stores {
      var Holding(user, secret) := s.calls[a.c];
      assert s'.stores == s.stores + [Stored(user, secret)];
      forall i, j | 0 <= i < j < |s'.stores| ensures s'.stores[i].secret != s'.stores[j].secret {
        assert s.stores[i] in s.stores;
      }
    }
  }

  lemma StoredStep(decrypt: Decrypt, s: State, a: Action)
    requires AllStored(decrypt, s)
    ensures AllStored(decrypt, Step(decrypt, s, a))
  {
    var s' := Step(decrypt, s, a);
    if a.Upsert? && s'.stores != s.stores {
      var Holding(user, secret) := s.calls[a.c];
      assert s'.stores == s.stores + [Stored(user, secret)];
      assert Stored(user, secret) in s'.stores;
      assert forall x :: x in s.stores ==> x in s'.stores;
    }
  }

  lemma ConsistentStep(decrypt: Decrypt, s: State, a: Action)
    requires Consistent(decrypt, s)
    ensures Consistent(decrypt, Step(decrypt, s, a))
  {
    MintStep(decrypt, s, a);
    DifferentStep(decrypt, s, a);
    StoredStep(decrypt, s, a);
  }

  lemma {:induction false} ConsistentRun(decrypt: Decrypt, s: State, actions: seq<Action>)
    requires Consistent(decrypt, s)
    ensures Consistent(decrypt, Run(decrypt, s, actions))
    decreases |actions|
  {
    if actions != [] {
      ConsistentStep(decrypt, s, actions[0]);
      ConsistentRun(decrypt, Step(decrypt, s, actions[0]), actions[1..]);
    }
  }

  /** An upsert of the run never fails after taking effect: every stored secret is also returned. */
  predicate ClearUpserts(actions: seq<Action>) {
    forall a :: a in actions && a.Upsert? ==> a.fault != FailsApplied
  }

  predicate StoresReturned(s: State) {
    forall x :: x in s.stores ==> Returned(x.user, x.secret) in s.told
  }

  lemma {:induction false} EveryStoreReturned(decrypt: Decrypt, s: State, actions: seq<Action>)
    requires ClearUpserts(actions) && StoresReturned(s)
    ensures StoresReturned(Run(decrypt, s, actions))
    decreases |actions|
  {
    if actions != [] {
      var a := actions[0];
      assert a in actions;
      var s' := Step(decrypt, s, a);
      forall x | x in s'.stores ensures Returned(x.user, x.secret) in s'.told {
        if x in s.stores {
          assert Returned(x.user, x.secret) in s.told;
        }
      }
      EveryStoreReturned(decrypt, s', actions[1..]);
    }
  }

  /** All successful calls for the user returned the same secret. */
  predicate OneSecret(s: State, user: int) {
    forall r, q :: r in s.told && q in s.told && r.user == user && q.user == user ==> r.secret == q.secret
  }

  /** At most one upsert for the user ever took effect. */
  predicate StoredOnce(s: State, user: int) {
    forall i, j :: 0 <= i < j < |s.stores| ==> !(s.stores[i].user == user && s.stores[j].user == user)
  }

  /** The action is an upsert that takes effect. */
  predicate Stores(decrypt: Decrypt, s: State, a: Action, user: int) {
    && a.Upsert? && a.c in s.calls && s.calls[a.c].Holding? && s.calls[a.c].user == user
    && decrypt(a.secretEnc) == Some(s.calls[a.c].secret) && a.fault != FailsUnapplied
  }

  /** It finds a row of the user's, and takes the ON CONFLICT branch. */
  predicate Replaces(decrypt: Decrypt, s: State, a: Action, user: int) {
    Stores(decrypt, s, a, user) && user in s.rows
  }

  /** A call of the user's returns a secret. */
  predicate Returns(decrypt: Decrypt, s: State, a: Action, user: int) {
    || (a.LookUp? && !a.fails && a.c in s.calls && s.calls[a.c] == Looking(user)
        && user in s.rows && decrypt(s.rows[user]).Some?)
    || (Stores(decrypt, s, a, user) && a.fault == Works)
  }

  /** The state before action k. */
  function At(decrypt: Decrypt, s: State, actions: seq<Action>, k: nat): State
    requires k <= |actions|
  {
    Run(decrypt, s, actions[..k])
  }

  predicate NeverReplaced(decrypt: Decrypt, s: State, actions: seq<Action>, user: int) {
    forall k :: 0 <= k < |actions| ==> !Replaces(decrypt, At(decrypt, s, actions, k), actions[k], user)
  }

  /** An upsert replaces the user's row at j, or between j and k, after a return at i and no later than one at k. */
  predicate ReplacedBetween(decrypt: Decrypt, s: State, actions: seq<Action>, user: int, i: nat, j: nat, k: nat)
    requires i < j <= k < |actions|
  {
    && Returns(decrypt, At(decrypt, s, actions, i), actions[i], user)
    && Replaces(decrypt, At(decrypt, s, actions, j), actions[j], user)
    && Returns(decrypt, At(decrypt, s, actions, k), actions[k], user)
  }

  lemma AtShift(decrypt: Decrypt, s: State, actions: seq<Action>, k: nat)
    requires 0 < k <= |actions|
    ensures At(decrypt, s, actions, k) == At(decrypt, Step(decrypt, s, actions[0]), actions[1..], k - 1)
  {
    hide Step;
    assert actions[..k][0] == actions[0] && actions[..k][1..] == actions[1..][..k - 1];
  }

  lemma AtStart(decrypt: Decrypt, s: State, actions: seq<Action>)
    ensures At(decrypt, s, actions, 0) == s
  {
  }

  lemma {:induction false} RunConcat(decrypt: Decrypt, s: State, a: seq<Action>, b: seq<Action>)
    ensures Run(decrypt, s, a + b) == Run(decrypt, Run(decrypt, s, a), b)
    decreases |a|
  {
    hide Step;
    if a == [] {
      assert a + b == b;
    } else {
      assert (a + b)[1..] == a[1..] + b;
      RunConcat(decrypt, Step(decrypt, s, a[0]), a[1..], b);
    }
  }

  lemma FromThere(decrypt: Decrypt, s: State, actions: seq<Action>, k: nat)
    requires k < |actions|
    ensures At(decrypt, s, actions, k + 1) == Step(decrypt, At(decrypt, s, actions, k), actions[k])
    ensures Run(decrypt, s, actions) == Run(decrypt, At(decrypt, s, actions, k + 1), actions[k + 1..])
  {
    hide Step, Run;
    assert actions[..k + 1] == actions[..k] + [actions[k]];
    RunConcat(decrypt, s, actions[..k], [actions[k]]);
    RunCons(decrypt, At(decrypt, s, actions, k), actions[k], []);
    RunNothing(decrypt, Step(decrypt, At(decrypt, s, actions, k), actions[k]));
    assert [actions[k]] + [] == [actions[k]];
    assert actions == actions[..k + 1] + actions[k + 1..];
    RunConcat(decrypt, s, actions[..k + 1], actions[k + 1..]);
  }

  /** What one action returns to the user, if anything: the secret its row then holds. */
  lemma WhatIsTold(decrypt: Decrypt, s: State, a: Action, user: int)
    ensures var s' := Step(decrypt, s, a);
            && s.told <= s'.told
            && (Returns(decrypt, s, a, user) ==>
                  && user in s'.rows && decrypt(s'.rows[user]).Some?
                  && s'.told == s.told + [Returned(user, decrypt(s'.rows[user]).value)])
            && (!Returns(decrypt, s, a, user) ==> forall r :: r in s'.told && r.user == user ==> r in s.told)
  {
  }

  lemma {:induction false} ToldStays(decrypt: Decrypt, s: State, actions: seq<Action>)
    ensures s.told <= Run(decrypt, s, actions).told
    decreases |actions|
  {
    hide Step;
    if actions != [] {
      WhatIsTold(decrypt, s, actions[0], 0);
      ToldStays(decrypt, Step(decrypt, s, actions[0]), actions[1..]);
    }
  }

  /** The row no longer holds a secret that was stored once. */
  predicate Gone(decrypt: Decrypt, s: State, user: int, secret: string) {
    user in s.rows && Stored(user, secret) in s.stores && decrypt(s.rows[user]) != Some(secret)
  }

  lemma GoneStep(decrypt: Decrypt, s: State, a: Action, user: int, secret: string)
    requires Consistent(decrypt, s) && Gone(decrypt, s, user, secret)
    ensures Gone(decrypt, Step(decrypt, s, a), user, secret)
  {
  }

  lemma {:induction false} GoneStays(decrypt: Decrypt, s: State, actions: seq<Action>, user: int, secret: string)
    requires Consistent(decrypt, s) && Gone(decrypt, s, user, secret)
    ensures Gone(decrypt, Run(decrypt, s, actions), user, secret)
    decreases |actions|
  {
    hide Step, Gone, Consistent;
    if actions != [] {
      ConsistentStep(decrypt, s, actions[0]);
      GoneStep(decrypt, s, actions[0], user, secret);
      GoneStays(decrypt, Step(decrypt, s, actions[0]), actions[1..], user, secret);
    }
  }

  lemma ReplacedIsGone(decrypt: Decrypt, s: State, a: Action, user: int, secret: string)
    requires Consistent(decrypt, s) && Replaces(decrypt, s, a, user) && Stored(user, secret) in s.stores
    ensures Gone(decrypt, Step(decrypt, s, a), user, secret)
  {
  }

  /** What a return at k told the user: a secret stored for them, and told for good. */
  lemma ToldAt(decrypt: Decrypt, s: State, actions: seq<Action>, user: int, k: nat) returns (secret: string)
    requires Consistent(decrypt, s) && k < |actions| && Returns(decrypt, At(decrypt, s, actions, k), actions[k], user)
    ensures var after := At(decrypt, s, actions, k + 1);
            && user in after.rows && decrypt(after.rows[user]) == Some(secret) && Stored(user, secret) in after.stores
            && Returned(user, secret) in Run(decrypt, s, actions).told
  {
    hide Step, Run, At, Consistent, Returns;
    var before, after := At(decrypt, s, actions, k), At(decrypt, s, actions, k + 1);
    FromThere(decrypt, s, actions, k);
    WhatIsTold(decrypt, before, actions[k], user);
    secret := decrypt(after.rows[user]).value;
    assert after.told[|before.told|] == Returned(user, secret);
    ToldStays(decrypt, after, actions[k + 1..]);
    assert Run(decrypt, s, actions).told[|before.told|] == Returned(user, secret);
    ConsistentAt(decrypt, s, actions, k + 1);
    ToldIsStored(decrypt, after, Returned(user, secret));
  }

  lemma ConsistentAt(decrypt: Decrypt, s: State, actions: seq<Action>, k: nat)
    requires Consistent(decrypt, s) && k <= |actions|
    ensures Consistent(decrypt, At(decrypt, s, actions, k))
  {
    hide Run, Consistent;
    ConsistentRun(decrypt, s, actions[..k]);
  }

  /** A replacement at j puts every secret stored before it out of the row for good. */
  lemma GoneAfter(decrypt: Decrypt, s: State, actions: seq<Action>, user: int, secret: string, j: nat, k: nat)
    requires Consistent(decrypt, s) && j < k <= |actions|
    requires Replaces(decrypt, At(decrypt, s, actions, j), actions[j], user)
    requires Stored(user, secret) in At(decrypt, s, actions, j).stores
    ensures Gone(decrypt, At(decrypt, s, actions, k), user, secret)
  {
    hide Step, Run, At, Gone, Consistent, Replaces;
    FromThere(decrypt, s, actions, j);
    ConsistentAt(decrypt, s, actions, j);
    ReplacedIsGone(decrypt, At(decrypt, s, actions, j), actions[j], user, secret);
    ConsistentAt(decrypt, s, actions, j + 1);
    Between(decrypt, s, actions, j + 1, k);
    GoneStays(decrypt, At(decrypt, s, actions, j + 1), actions[j + 1..k], user, secret);
  }

  /** Two returns with a replacement between them return different secrets. */
  lemma ReplacementShows(decrypt: Decrypt, s: State, actions: seq<Action>, user: int, i: nat, j: nat, k: nat)
    requires Consistent(decrypt, s) && i < j <= k < |actions| && ReplacedBetween(decrypt, s, actions, user, i, j, k)
    ensures !OneSecret(Run(decrypt, s, actions), user)
  {
    hide Step, Run, At, Gone, Consistent, Returns, Replaces;
    var x := ToldAt(decrypt, s, actions, user, i);
    var y := ToldAt(decrypt, s, actions, user, k);
    Between(decrypt, s, actions, i + 1, j);
    StoresStay(decrypt, At(decrypt, s, actions, i + 1), actions[i + 1..j]);
    GoneAfter(decrypt, s, actions, user, x, j, k + 1);
    NotGone(decrypt, At(decrypt, s, actions, k + 1), user, x);
  }

  lemma NotGone(decrypt: Decrypt, s: State, user: int, secret: string)
    requires Gone(decrypt, s, user, secret)
    ensures user in s.rows && decrypt(s.rows[user]) != Some(secret)
  {
  }

  lemma ToldIsStored(decrypt: Decrypt, s: State, r: Returned)
    requires Consistent(decrypt, s) && r in s.told
    ensures Stored(r.user, r.secret) in s.stores
  {
  }

  lemma Between(decrypt: Decrypt, s: State, actions: seq<Action>, i: nat, k: nat)
    requires i <= k <= |actions|
    ensures At(decrypt, s, actions, k) == Run(decrypt, At(decrypt, s, actions, i), actions[i..k])
  {
    hide Run;
    assert actions[..k] == actions[..i] + actions[i..k];
    RunConcat(decrypt, s, actions[..i], actions[i..k]);
  }

  lemma {:induction false} StoresStay(decrypt: Decrypt, s: State, actions: seq<Action>)
    ensures s.stores <= Run(decrypt, s, actions).stores
    decreases |actions|
  {
    if actions != [] {
      StoresStay(decrypt, Step(decrypt, s, actions[0]), actions[1..]);
    }
  }

  /** Without a replacement the row keeps its secret, and only it is returned. */
  lemma KeptStep(decrypt: Decrypt, s: State, a: Action, user: int)
    requires user in s.rows && !Replaces(decrypt, s, a, user)
    ensures user in Step(decrypt, s, a).rows && Step(decrypt, s, a).rows[user] == s.rows[user]
  {
  }

  /** A new secret can only have been returned by an action that returns, from a row replaced before. */
  lemma {:induction false} NewSecretNeedsReplacement(decrypt: Decrypt, s: State, actions: seq<Action>, user: int,
                                                     x: string, r: Returned) returns (j: nat, k: nat)
    requires user in s.rows && decrypt(s.rows[user]) == Some(x)
    requires r in Run(decrypt, s, actions).told && r !in s.told && r.user == user && r.secret != x
    ensures j <= k < |actions|
    ensures Replaces(decrypt, At(decrypt, s, actions, j), actions[j], user)
    ensures Returns(decrypt, At(decrypt, s, actions, k), actions[k], user)
    decreases |actions|
  {
    hide Step, Replaces, Returns, At;
    var a, s' := actions[0], Step(decrypt, s, actions[0]);
    AtStart(decrypt, s, actions);
    if Replaces(decrypt, s, a, user) {
      j := 0;
      k := ReturnOf(decrypt, s, actions, user, r);
    } else {
      KeptStep(decrypt, s, a, user);
      WhatIsTold(decrypt, s, a, user);
      assert r !in s'.told;
      j, k := NewSecretNeedsReplacement(decrypt, s', actions[1..], user, x, r);
      AtShift(decrypt, s, actions, j + 1);
      AtShift(decrypt, s, actions, k + 1);
      j, k := j + 1, k + 1;
    }
  }

  lemma {:induction false} ReturnOf(decrypt: Decrypt, s: State, actions: seq<Action>, user: int, r: Returned)
    returns (k: nat)
    requires r in Run(decrypt, s, actions).told && r !in s.told && r.user == user
    ensures k < |actions| && Returns(decrypt, At(decrypt, s, actions, k), actions[k], user)
    ensures r in At(decrypt, s, actions, k + 1).told && r !in At(decrypt, s, actions, k).told
    decreases |actions|
  {
    hide Step, Returns, At;
    var a, s' := actions[0], Step(decrypt, s, actions[0]);
    AtStart(decrypt, s, actions);
    AtStart(decrypt, s', actions[1..]);
    AtShift(decrypt, s, actions, 1);
    WhatIsTold(decrypt, s, a, user);
    if r in s'.told {
      k := 0;
    } else {
      k := ReturnOf(decrypt, s', actions[1..], user, r);
      AtShift(decrypt, s, actions, k + 1);
      AtShift(decrypt, s, actions, k + 2);
      k := k + 1;
    }
  }

  /** Two secrets returned: some replacement stands between two returns. */
  lemma TwoSecretsNeedReplacement(decrypt: Decrypt, s: State, actions: seq<Action>, user: int, r: Returned, q: Returned)
    returns (i: nat, j: nat, k: nat)
    requires s.told == [] && r in Run(decrypt, s, actions).told && q in Run(decrypt, s, actions).told
    requires r.user == user && q.user == user && r.secret != q.secret
    ensures i < j <= k < |actions| && ReplacedBetween(decrypt, s, actions, user, i, j, k)
  {
    hide Step, Run, Returns, Replaces;
    var m := ReturnOf(decrypt, s, actions, user, r);
    var n := ReturnOf(decrypt, s, actions, user, q);
    FromThere(decrypt, s, actions, m);
    FromThere(decrypt, s, actions, n);
    WhatIsTold(decrypt, At(decrypt, s, actions, m), actions[m], user);
    WhatIsTold(decrypt, At(decrypt, s, actions, n), actions[n], user);
    if m <= n {
      Between(decrypt, s, actions, m, n);
      ToldStays(decrypt, At(decrypt, s, actions, m), actions[m..n]);
      i, j, k := Later(decrypt, s, actions, user, r, q, m);
    } else {
      Between(decrypt, s, actions, n, m);
      ToldStays(decrypt, At(decrypt, s, actions, n), actions[n..m]);
      i, j, k := Later(decrypt, s, actions, user, q, r, n);
    }
  }

  /** The case in which r is returned at m, and q only later. */
  lemma Later(decrypt: Decrypt, s: State, actions: seq<Action>, user: int, r: Returned, q: Returned, m: nat)
    returns (i: nat, j: nat, k: nat)
    requires m < |actions| && Returns(decrypt, At(decrypt, s, actions, m), actions[m], user)
    requires r in At(decrypt, s, actions, m + 1).told && r !in At(decrypt, s, actions, m).told
    requires q in Run(decrypt, s, actions).told && q !in At(decrypt, s, actions, m).told
    requires r.user == user && q.user == user && r.secret != q.secret
    ensures i < j <= k < |actions| && ReplacedBetween(decrypt, s, actions, user, i, j, k)
  {
    hide Step, Run, Returns, Replaces, At;
    FromThere(decrypt, s, actions, m);
    var sm, rest := At(decrypt, s, actions, m + 1), actions[m + 1..];
    WhatIsTold(decrypt, At(decrypt, s, actions, m), actions[m], user);
    j, k := NewSecretNeedsReplacement(decrypt, sm, rest, user, r.secret, q);
    AtFurther(decrypt, s, actions, m + 1, j);
    AtFurther(decrypt, s, actions, m + 1, k);
    i, j, k := m, m + 1 + j, m + 1 + k;
  }

  lemma AtFurther(decrypt: Decrypt, s: State, actions: seq<Action>, m: nat, k: nat)
    requires m + k <= |actions|
    ensures At(decrypt, At(decrypt, s, actions, m), actions[m..], k) == At(decrypt, s, actions, m + k)
  {
    hide Run;
    assert actions[..m + k] == actions[..m] + actions[m..][..k];
    RunConcat(decrypt, s, actions[..m], actions[m..][..k]);
  }

  /** Over every run from an empty table, whatever fails: a user is told one secret, always the same, if and
      only if no upsert takes the ON CONFLICT branch for them between two returns. */
  lemma OneSecretExactly(decrypt: Decrypt, actions: seq<Action>, user: int)
    ensures OneSecret(Run(decrypt, EMPTY, actions), user) <==>
            forall i, j, k :: 0 <= i < j <= k < |actions| ==> !ReplacedBetween(decrypt, EMPTY, actions, user, i, j, k)
  {
    hide Run, ReplacedBetween;
    var s := Run(decrypt, EMPTY, actions);
    forall i, j, k | 0 <= i < j <= k < |actions| && ReplacedBetween(decrypt, EMPTY, actions, user, i, j, k)
      ensures !OneSecret(s, user)
    {
      ReplacementShows(decrypt, EMPTY, actions, user, i, j, k);
    }
    if !OneSecret(s, user) {
      var r, q :| r in s.told && q in s.told && r.user == user && q.user == user && r.secret != q.secret;
      var i, j, k := TwoSecretsNeedReplacement(decrypt, EMPTY, actions, user, r, q);
    }
  }

  // ---- Never replacing at all ----

  lemma {:induction false} NeverReplacedRest(decrypt: Decrypt, s: State, actions: seq<Action>, user: int)
    requires actions != []
    ensures NeverReplaced(decrypt, s, actions, user) <==>
            !Replaces(decrypt, s, actions[0], user)
            && NeverReplaced(decrypt, Step(decrypt, s, actions[0]), actions[1..], user)
  {
    hide Step, Replaces, At;
    var s', rest := Step(decrypt, s, actions[0]), actions[1..];
    AtStart(decrypt, s, actions);
    forall k | 0 < k < |actions| ensures At(decrypt, s, actions, k) == At(decrypt, s', rest, k - 1) {
      AtShift(decrypt, s, actions, k);
    }
    if NeverReplaced(decrypt, s, actions, user) {
      forall k | 0 <= k < |rest| ensures !Replaces(decrypt, At(decrypt, s', rest, k), rest[k], user) {
        assert rest[k] == actions[k + 1] && At(decrypt, s, actions, k + 1) == At(decrypt, s', rest, k);
      }
    }
  }

  lemma NothingReplaced(decrypt: Decrypt, s: State, user: int)
    ensures NeverReplaced(decrypt, s, [], user)
  {
  }

  /** The user's row is there exactly if an upsert for them took effect. */
  predicate RowsAreStored(s: State, user: int) {
    user in s.rows <==> exists x :: x in s.stores && x.user == user
  }

  lemma StoreStep(decrypt: Decrypt, s: State, a: Action, user: int)
    requires RowsAreStored(s, user) && StoredOnce(s, user)
    ensures RowsAreStored(Step(decrypt, s, a), user)
    ensures StoredOnce(Step(decrypt, s, a), user) <==> !Replaces(decrypt, s, a, user)
  {
    var s' := Step(decrypt, s, a);
    if s'.stores != s.stores {
      var x := s'.stores[|s.stores|];
      assert s'.stores == s.stores + [x] && x in s'.stores;
      forall y | y in s.stores ensures y in s'.stores {}
      if Replaces(decrypt, s, a, user) {
        var y :| y in s.stores && y.user == user;
        var i :| 0 <= i < |s.stores| && s.stores[i] == y;
        assert s'.stores[i].user == user && s'.stores[|s.stores|].user == user;
      }
      if x.user != user {
        forall y | y in s'.stores && y.user == user ensures y in s.stores {}
      }
    }
  }

  /** No upsert replaces a row of the user's exactly if at most one upsert for them takes effect. */
  lemma {:induction false} NeverReplacedIsStoredOnce(decrypt: Decrypt, s: State, actions: seq<Action>, user: int)
    requires RowsAreStored(s, user) && StoredOnce(s, user)
    ensures NeverReplaced(decrypt, s, actions, user) <==> StoredOnce(Run(decrypt, s, actions), user)
    decreases |actions|
  {
    hide Step, RowsAreStored, Replaces, NeverReplaced, StoredOnce;
    if actions == [] {
      NothingReplaced(decrypt, s, user);
    } else {
      var s' := Step(decrypt, s, actions[0]);
      NeverReplacedRest(decrypt, s, actions, user);
      StoreStep(decrypt, s, actions[0], user);
      if Replaces(decrypt, s, actions[0], user) {
        TwiceStays(decrypt, s', actions[1..], user);
      } else {
        NeverReplacedIsStoredOnce(decrypt, s', actions[1..], user);
      }
    }
  }

  lemma TwiceStays(decrypt: Decrypt, s: State, actions: seq<Action>, user: int)
    requires !StoredOnce(s, user)
    ensures !StoredOnce(Run(decrypt, s, actions), user)
  {
    hide Run;
    StoresStay(decrypt, s, actions);
    var i, j :| 0 <= i < j < |s.stores| && s.stores[i].user == user && s.stores[j].user == user;
    assert Run(decrypt, s, actions).stores[i] == s.stores[i] && Run(decrypt, s, actions).stores[j] == s.stores[j];
  }

  lemma StoresAgree(s: State, user: int)
    requires StoresReturned(s) && OneSecret(s, user)
    ensures forall i, j :: 0 <= i < j < |s.stores| && s.stores[i].user == user && s.stores[j].user == user ==>
              s.stores[i].secret == s.stores[j].secret
  {
    forall i, j | 0 <= i < j < |s.stores| && s.stores[i].user == user && s.stores[j].user == user
      ensures s.stores[i].secret == s.stores[j].secret
    {
      assert s.stores[i] in s.stores && s.stores[j] in s.stores;
      assert Returned(user, s.stores[i].secret) in s.told && Returned(user, s.stores[j].secret) in s.told;
    }
  }

  /** Over every run from an empty table: if no upsert ever finds a row of the user's, the user is told one
      secret; and when every upsert that takes effect also reports so, only then. */
  lemma OneSecretIfNeverReplaced(decrypt: Decrypt, actions: seq<Action>, user: int)
    ensures NeverReplaced(decrypt, EMPTY, actions, user) ==> OneSecret(Run(decrypt, EMPTY, actions), user)
    ensures ClearUpserts(actions) && OneSecret(Run(decrypt, EMPTY, actions), user)
        ==> NeverReplaced(decrypt, EMPTY, actions, user)
  {
    hide Run, Step, NeverReplaced;
    var s := Run(decrypt, EMPTY, actions);
    NeverReplacedIsStoredOnce(decrypt, EMPTY, actions, user);
    ConsistentRun(decrypt, EMPTY, actions);
    if StoredOnce(s, user) {
      forall r, q | r in s.told && q in s.told && r.user == user && q.user == user ensures r.secret == q.secret {
        var i :| 0 <= i < |s.stores| && s.stores[i] == Stored(user, r.secret);
        var j :| 0 <= j < |s.stores| && s.stores[j] == Stored(user, q.secret);
        assert i == j;
      }
    }
    if ClearUpserts(actions) && OneSecret(s, user) {
      EveryStoreReturned(decrypt, EMPTY, actions);
      StoresAgree(s, user);
    }
  }
}
