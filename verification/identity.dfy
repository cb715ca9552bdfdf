/** internal/companion's IdentityCache: a token's identity, cached for a while. Resolve takes its lock
    twice, around an unlocked upstream call, so calls for one token can overlap. */
module IdentityCache {
  import opened Base

  datatype Identity = Identity(userID: int, username: string)

  datatype Entry = Entry(id: Identity, expires: int)

  type Entries = map<string, Entry>

  datatype Resolution = NoToken | Rejected | Resolved(id: Identity)

  /** The first critical section: a hit only strictly before the expiry. */
  function Look(entries: Entries, key: string, now: int): Option<Identity> {
    if key in entries && now < entries[key].expires then Some(entries[key].id) else None
  }

  /** The second critical section. */
  function Save(entries: Entries, key: string, id: Identity, now: int, ttl: int): Entries {
    entries[key := Entry(id, now + ttl)]
  }

  class Cache {
    const ttl: int
    /** hashToken. */
    const hash: string -> string
    var entries: Entries

    constructor (ttl: int, hash: string -> string)
      ensures this.ttl == ttl && this.hash == hash && entries == map[]
    {
      this.ttl, this.hash, entries := ttl, hash, map[];
    }

    /** A Resolve call no other call overlaps; upstream is Vikunja's answer, were it asked. */
    method Resolve(token: string, lookAt: int, upstream: Option<Identity>, saveAt: int)
      returns (r: Resolution, asked: bool)
      modifies this
      ensures token == "" ==> r == NoToken && !asked && entries == old(entries)
      ensures asked <==>
                token != "" && !(hash(token) in old(entries) && lookAt < old(entries)[hash(token)].expires)
      ensures token != "" && !asked ==> r == Resolved(old(entries)[hash(token)].id) && entries == old(entries)
      ensures asked && upstream.None? ==> r == Rejected && entries == old(entries)
      ensures asked && upstream.Some? ==>
                && r == Resolved(upstream.value)
                && entries == old(entries)[hash(token) := Entry(upstream.value, saveAt + ttl)]
      ensures token != "" ==>
                match Look(old(entries), hash(token), lookAt)
                case Some(id) => r == Resolved(id) && !asked
                case None => asked &&
                             (upstream.Some? ==>
                                entries == Save(old(entries), hash(token), upstream.value, saveAt, ttl))
    {
      if token == "" {
        return NoToken, false;
      }
      var key := hash(token);
      if key in entries {
        var e := entries[key];
        if lookAt < e.expires {
          return Resolved(e.id), false;
        }
      }
      if upstream.None? {
        return Rejected, true;
      }
      entries := entries[key := Entry(upstream.value, saveAt + ttl)];
      r, asked := Resolved(upstream.value), true;
    }
  }

  // ---- Any number of calls at once ----

  datatype Call =
    | Starting(token: string)
    | Asking(token: string)
    | Answered(token: string, id: Identity, at: int)

  /** An answer Vikunja gave for a token, and when it was received. */
  datatype Answer = Answer(token: string, id: Identity, at: int)

  /** An answer that reached the cache, and when. */
  datatype Write = Write(answer: Answer, at: int)

  /** A successful Resolve: the token, what it returned, and when. */
  datatype Result = Result(token: string, id: Identity, at: int)

  /** behind and stored are history since the last restart: the answer each entry comes from, and all answers
      written. */
  datatype State = State(
    now: int,
    entries: Entries,
    behind: map<string, Answer>,
    stored: set<Answer>,
    calls: map<nat, Call>,
    answers: set<Answer>,
    writes: set<Write>,
    results: set<Result>)

  datatype Action =
    | Begin(c: nat, token: string)
    | LookUp(c: nat)
    | Reply(c: nat, answer: Option<Identity>)
    | Store(c: nat)
    | Abandon(c: nat)
    | Pass(time: nat)
    | Restart

  function Init(now: int): State {
    State(now, map[], map[], {}, map[], {}, {}, {})
  }

  /** Actions that are not possible in a state leave it as it is. */
  function Step(hash: string -> string, ttl: int, s: State, a: Action): State {
    match a
    case Begin(c, token) =>
      if c in s.calls || token == "" then s else s.(calls := s.calls[c := Starting(token)])
    case LookUp(c) =>
      if c !in s.calls || !s.calls[c].Starting? then s
      else
        var token := s.calls[c].token;
        (match Look(s.entries, hash(token), s.now)
         case Some(id) => s.(calls := s.calls - {c}, results := s.results + {Result(token, id, s.now)})
         case None => s.(calls := s.calls[c := Asking(token)]))
    case Reply(c, answer) =>
      if c !in s.calls || !s.calls[c].Asking? then s
      else if answer.None? then s.(calls := s.calls - {c})
      else
        var token := s.calls[c].token;
        s.(calls := s.calls[c := Answered(token, answer.value, s.now)],
           answers := s.answers + {Answer(token, answer.value, s.now)})
    case Store(c) =>
      if c !in s.calls || !s.calls[c].Answered? then s
      else
        var Answered(token, id, at) := s.calls[c];
        s.(calls := s.calls - {c},
           entries := Save(s.entries, hash(token), id, s.now, ttl),
           behind := s.behind[hash(token) := Answer(token, id, at)],
           stored := s.stored + {Answer(token, id, at)},
           writes := s.writes + {Write(Answer(token, id, at), s.now)},
           results := s.results + {Result(token, id, s.now)})
    case Abandon(c) => s.(calls := s.calls - {c})
    case Pass(time) => s.(now := s.now + time)
    case Restart => s.(calls := map[], entries := map[], behind := map[], stored := {})
  }

  function Run(hash: string -> string, ttl: int, s: State, actions: seq<Action>): State
    decreases |actions|
  {
    if actions == [] then s else Run(hash, ttl, Step(hash, ttl, s, actions[0]), actions[1..])
  }

  /** No two tokens hash alike. */
  ghost predicate Injective(hash: string -> string) {
    forall x, y :: hash(x) == hash(y) ==> x == y
  }

  /** The write that put an entry in the cache. */
  predicate WrittenBy(hash: string -> string, ttl: int, key: string, e: Entry, w: Write) {
    hash(w.answer.token) == key && w.answer.id == e.id && e.expires == w.at + ttl
  }

  /** The write that justifies a result: same token, same identity, not yet expired. */
  predicate Justifies(ttl: int, w: Write, r: Result) {
    w.answer.token == r.token && w.answer.id == r.id && w.at <= r.at && (r.at == w.at || r.at < w.at + ttl)
  }

  ghost predicate Traced(hash: string -> string, ttl: int, s: State) {
    && (forall key :: key in s.entries ==> exists w :: w in s.writes && WrittenBy(hash, ttl, key, s.entries[key], w))
    && (forall w :: w in s.writes ==> w.answer in s.answers && w.answer.at <= w.at <= s.now)
    && (forall c :: c in s.calls && s.calls[c].Answered? ==>
          Answer(s.calls[c].token, s.calls[c].id, s.calls[c].at) in s.answers && s.calls[c].at <= s.now)
    && (forall r :: r in s.results ==> exists w :: w in s.writes && Justifies(ttl, w, r))
  }

  lemma LookUpTraced(hash: string -> string, ttl: int, s: State, c: nat)
    requires Injective(hash) && Traced(hash, ttl, s) && c in s.calls && s.calls[c].Starting?
    ensures Traced(hash, ttl, Step(hash, ttl, s, LookUp(c)))
  {
    var token := s.calls[c].token;
    if Look(s.entries, hash(token), s.now).Some? {
      var w :| w in s.writes && WrittenBy(hash, ttl, hash(token), s.entries[hash(token)], w);
      assert w.answer.token == token;
      assert Justifies(ttl, w, Result(token, w.answer.id, s.now));
    }
  }

  lemma StoreTraced(hash: string -> string, ttl: int, s: State, c: nat)
    requires Traced(hash, ttl, s) && c in s.calls && s.calls[c].Answered?
    ensures Traced(hash, ttl, Step(hash, ttl, s, Store(c)))
  {
    var Answered(token, id, at) := s.calls[c];
    var s' := Step(hash, ttl, s, Store(c));
    var w := Write(Answer(token, id, at), s.now);
    assert w in s'.writes && Justifies(ttl, w, Result(token, id, s.now));
    forall key | key in s'.entries
      ensures exists v :: v in s'.writes && WrittenBy(hash, ttl, key, s'.entries[key], v)
    {
      if key == hash(token) {
        assert WrittenBy(hash, ttl, key, s'.entries[key], w);
      } else {
        var v :| v in s.writes && WrittenBy(hash, ttl, key, s.entries[key], v);
        assert v in s'.writes;
      }
    }
    forall r | r in s'.results ensures exists v :: v in s'.writes && Justifies(ttl, v, r) {
      if r in s.results {
        var v :| v in s.writes && Justifies(ttl, v, r);
        assert v in s'.writes;
      }
    }
  }

  lemma StepTraced(hash: string -> string, ttl: int, s: State, a: Action)
    requires Injective(hash) && Traced(hash, ttl, s)
    ensures Traced(hash, ttl, Step(hash, ttl, s, a))
  {
    if a.LookUp? && a.c in s.calls && s.calls[a.c].Starting? {
      LookUpTraced(hash, ttl, s, a.c);
    } else if a.Store? && a.c in s.calls && s.calls[a.c].Answered? {
      StoreTraced(hash, ttl, s, a.c);
    }
  }

  lemma {:induction false} RunTraced(hash: string -> string, ttl: int, s: State, actions: seq<Action>)
    requires Injective(hash) && Traced(hash, ttl, s)
    ensures Traced(hash, ttl, Run(hash, ttl, s, actions))
    decreases |actions|
  {
    if actions != [] {
      StepTraced(hash, ttl, s, actions[0]);
      RunTraced(hash, ttl, Step(hash, ttl, s, actions[0]), actions[1..]);
    }
  }

  /** Every answer reaches the cache within the given delay. */
  predicate Prompt(s: State, delay: int) {
    forall w :: w in s.writes ==> w.at - w.answer.at <= delay
  }

  /** Under every interleaving, a successful result is an answer Vikunja gave for that very token, received
      no earlier than the lifetime plus the writing delay before the result. Answers come from Vikunja
      alone, so errors are never served. */
  lemma ResultsAreRecentAnswers(hash: string -> string, ttl: int, delay: int, start: int, actions: seq<Action>,
                                r: Result)
    requires Injective(hash) && ttl >= 0
    requires var s := Run(hash, ttl, Init(start), actions); r in s.results && Prompt(s, delay)
    ensures exists a :: a in Run(hash, ttl, Init(start), actions).answers
              && a.token == r.token && a.id == r.id && r.at - ttl - delay <= a.at <= r.at
  {
    var s := Run(hash, ttl, Init(start), actions);
    RunTraced(hash, ttl, Init(start), actions);
    var w :| w in s.writes && Justifies(ttl, w, r);
    assert w.answer in s.answers;
  }

  // ---- The cache does answer ----

  /** A look-up returns at once exactly if there is an entry that has not expired, and asks Vikunja otherwise. */
  lemma LookUpExactly(hash: string -> string, ttl: int, s: State, c: nat, token: string)
    requires c in s.calls && s.calls[c] == Starting(token)
    ensures var s', key := Step(hash, ttl, s, LookUp(c)), hash(token);
            if key in s.entries && s.now < s.entries[key].expires
            then c !in s'.calls && s'.results == s.results + {Result(token, s.entries[key].id, s.now)}
            else c in s'.calls && s'.calls[c] == Asking(token) && s'.results == s.results
  {
  }

  /** A call that writes its answer returns that answer too, and the entry lives for the lifetime from now. */
  lemma StoreExactly(hash: string -> string, ttl: int, s: State, c: nat)
    requires c in s.calls && s.calls[c].Answered?
    ensures var Answered(token, id, at) := s.calls[c];
            var s' := Step(hash, ttl, s, Store(c));
            && c !in s'.calls && s'.results == s.results + {Result(token, id, s.now)}
            && s'.entries == s.entries[hash(token) := Entry(id, s.now + ttl)]
  {
  }

  /** The other steps of a call, and what ends all calls: a new one starts at its look-up; a rejection ends a
      call and an answer sends it on to write; an abandoned call and a restart leave no call behind. */
  lemma OtherStepsExactly(hash: string -> string, ttl: int, s: State, c: nat, token: string, answer: Option<Identity>)
    ensures c !in s.calls && token != "" ==>
              Step(hash, ttl, s, Begin(c, token)) == s.(calls := s.calls[c := Starting(token)])
    ensures c in s.calls && s.calls[c] == Asking(token) ==>
              Step(hash, ttl, s, Reply(c, answer)) ==
              match answer
              case None => s.(calls := s.calls - {c})
              case Some(id) => s.(calls := s.calls[c := Answered(token, id, s.now)],
                                  answers := s.answers + {Answer(token, id, s.now)})
    ensures Step(hash, ttl, s, Abandon(c)).calls == s.calls - {c}
    ensures Step(hash, ttl, s, Abandon(c)).entries == s.entries
    ensures Step(hash, ttl, s, Restart).calls == map[] && Step(hash, ttl, s, Restart).entries == map[]
    ensures c in s.calls && !s.calls[c].Starting? ==>
              Step(hash, ttl, s, LookUp(c)) == s && Step(hash, ttl, s, Begin(c, token)) == s
  {
  }

  /** Without a token nothing is looked up, asked or returned. */
  predicate NoEmptyTokens(s: State) {
    && (forall c :: c in s.calls ==> s.calls[c].token != "")
    && (forall r :: r in s.results ==> r.token != "")
    && (forall a :: a in s.answers ==> a.token != "")
  }

  lemma {:induction false} EmptyTokenIsNeverAsked(hash: string -> string, ttl: int, s: State, actions: seq<Action>)
    requires NoEmptyTokens(s)
    ensures NoEmptyTokens(Run(hash, ttl, s, actions))
    decreases |actions|
  {
    if actions != [] {
      EmptyTokenIsNeverAsked(hash, ttl, Step(hash, ttl, s, actions[0]), actions[1..]);
    }
  }

  /** The action writes the key's entry. */
  predicate Writes(hash: string -> string, s: State, a: Action, key: string) {
    a.Store? && a.c in s.calls && s.calls[a.c].Answered? && hash(s.calls[a.c].token) == key
  }

  /** No restart, and no call writes the key's entry. */
  predicate LeftAlone(hash: string -> string, ttl: int, s: State, actions: seq<Action>, key: string)
    decreases |actions|
  {
    actions == [] || (!actions[0].Restart? && !Writes(hash, s, actions[0], key)
                      && LeftAlone(hash, ttl, Step(hash, ttl, s, actions[0]), actions[1..], key))
  }

  lemma {:induction false} EntryStays(hash: string -> string, ttl: int, s: State, actions: seq<Action>, key: string)
    requires key in s.entries && LeftAlone(hash, ttl, s, actions, key)
    ensures var s' := Run(hash, ttl, s, actions); key in s'.entries && s'.entries[key] == s.entries[key]
    decreases |actions|
  {
    if actions != [] {
      EntryStays(hash, ttl, Step(hash, ttl, s, actions[0]), actions[1..], key);
    }
  }

  /** An answer written for a token serves every later look-up of it within its lifetime, by whichever call and
      whatever the others do, until a restart or the next write: the call returns that very identity without
      asking. From the end of the lifetime on it asks. */
  lemma AnswersServeForTheirLifetime(hash: string -> string, ttl: int, s: State, c: nat, actions: seq<Action>, d: nat)
    requires c in s.calls && s.calls[c].Answered?
    requires var s1 := Step(hash, ttl, s, Store(c));
             && LeftAlone(hash, ttl, s1, actions, hash(s.calls[c].token))
             && var s2 := Run(hash, ttl, s1, actions); d in s2.calls && s2.calls[d] == Starting(s.calls[c].token)
    ensures var Answered(token, id, at) := s.calls[c];
            var s2 := Run(hash, ttl, Step(hash, ttl, s, Store(c)), actions);
            var s3 := Step(hash, ttl, s2, LookUp(d));
            if s2.now < s.now + ttl
            then Result(token, id, s2.now) in s3.results && d !in s3.calls
            else d in s3.calls && s3.calls[d] == Asking(token)
  {
    var s1 := Step(hash, ttl, s, Store(c));
    EntryStays(hash, ttl, s1, actions, hash(s.calls[c].token));
    LookUpExactly(hash, ttl, Run(hash, ttl, s1, actions), d, s.calls[c].token);
  }

  // ---- When the cache holds the newest answer ----

  /** The entry of a key comes from an answer written for it since the last restart, none of which was received
      later. */
  predicate Newest(hash: string -> string, s: State, key: string) {
    key in s.entries ==>
      && key in s.behind && s.behind[key] in s.stored && s.behind[key].id == s.entries[key].id
      && forall a :: a in s.stored && hash(a.token) == key ==> a.at <= s.behind[key].at
  }

  /** The newest answer is cached after every action of the run, and at its start. */
  predicate AlwaysNewest(hash: string -> string, ttl: int, s: State, actions: seq<Action>, key: string)
    decreases |actions|
  {
    && Newest(hash, s, key)
    && (actions == [] || AlwaysNewest(hash, ttl, Step(hash, ttl, s, actions[0]), actions[1..], key))
  }

  /** The action is a second critical section about to write an answer received before the one it replaces. */
  predicate Regresses(hash: string -> string, s: State, a: Action, key: string) {
    && a.Store? && a.c in s.calls && s.calls[a.c].Answered? && hash(s.calls[a.c].token) == key
    && key in s.behind && s.calls[a.c].at < s.behind[key].at
  }

  predicate NeverRegresses(hash: string -> string, ttl: int, s: State, actions: seq<Action>, key: string)
    decreases |actions|
  {
    actions == [] || (!Regresses(hash, s, actions[0], key)
                      && NeverRegresses(hash, ttl, Step(hash, ttl, s, actions[0]), actions[1..], key))
  }

  /** History fits the cache: each key with an entry, and no other, has answers written since the restart. */
  predicate Attributed(hash: string -> string, s: State) {
    && s.behind.Keys == s.entries.Keys
    && (forall key :: key in s.behind ==> s.behind[key] in s.stored && hash(s.behind[key].token) == key)
    && forall a :: a in s.stored ==> hash(a.token) in s.behind
  }

  lemma AttributedStep(hash: string -> string, ttl: int, s: State, a: Action)
    requires Attributed(hash, s)
    ensures Attributed(hash, Step(hash, ttl, s, a))
  {
  }

  lemma NewestStep(hash: string -> string, ttl: int, s: State, a: Action, key: string)
    requires Attributed(hash, s) && Newest(hash, s, key)
    ensures Newest(hash, Step(hash, ttl, s, a), key) <==> !Regresses(hash, s, a, key)
  {
    if Regresses(hash, s, a, key) {
      assert s.behind[key] in Step(hash, ttl, s, a).stored;
    }
  }

  lemma {:induction false} NewestAlong(hash: string -> string, ttl: int, s: State, actions: seq<Action>, key: string)
    requires Attributed(hash, s) && Newest(hash, s, key)
    ensures AlwaysNewest(hash, ttl, s, actions, key) <==> NeverRegresses(hash, ttl, s, actions, key)
    decreases |actions|
  {
    if actions != [] {
      hide Newest, Attributed, Regresses, Step;
      var s' := Step(hash, ttl, s, actions[0]);
      AttributedStep(hash, ttl, s, actions[0]);
      NewestStep(hash, ttl, s, actions[0], key);
      if Newest(hash, s', key) {
        NewestAlong(hash, ttl, s', actions[1..], key);
      } else {
        NotNewestNow(hash, ttl, s', actions[1..], key);
      }
    }
  }

  lemma NotNewestNow(hash: string -> string, ttl: int, s: State, actions: seq<Action>, key: string)
    requires !Newest(hash, s, key)
    ensures !AlwaysNewest(hash, ttl, s, actions, key)
  {
  }

  /** Over every run: at every moment the entry comes from the latest-received answer written for its key since
      the last restart, if and only if no write of the run replaces an entry by an answer received earlier. */
  lemma CacheIsNewestExactly(hash: string -> string, ttl: int, start: int, actions: seq<Action>, key: string)
    ensures AlwaysNewest(hash, ttl, Init(start), actions, key)
       <==> NeverRegresses(hash, ttl, Init(start), actions, key)
  {
    NewestAlong(hash, ttl, Init(start), actions, key);
  }

  /** A call that has missed its look-up for this key and has not written yet. */
  predicate InFlight(hash: string -> string, call: Call, key: string) {
    !call.Starting? && hash(call.token) == key
  }

  /** The action misses a look-up of the key while another call for it is in flight. */
  predicate Overlaps(hash: string -> string, s: State, a: Action, key: string) {
    && a.LookUp? && a.c in s.calls && s.calls[a.c].Starting? && hash(s.calls[a.c].token) == key
    && Look(s.entries, key, s.now).None?
    && exists d :: d in s.calls && InFlight(hash, s.calls[d], key)
  }

  predicate NeverOverlaps(hash: string -> string, ttl: int, s: State, actions: seq<Action>, key: string)
    decreases |actions|
  {
    actions == [] || (!Overlaps(hash, s, actions[0], key)
                      && NeverOverlaps(hash, ttl, Step(hash, ttl, s, actions[0]), actions[1..], key))
  }

  /** At most one call for the key is in flight, and nothing cached is newer than its answer. */
  predicate Alone(hash: string -> string, s: State, key: string) {
    && (forall c, d :: c in s.calls && d in s.calls ==>
          InFlight(hash, s.calls[c], key) && InFlight(hash, s.calls[d], key) ==> c == d)
    && (key in s.behind ==> s.behind[key].at <= s.now)
    && (forall c :: c in s.calls && s.calls[c].Answered? && hash(s.calls[c].token) == key ==>
          s.calls[c].at <= s.now && (key in s.behind ==> s.behind[key].at <= s.calls[c].at))
  }

  lemma AloneStep(hash: string -> string, ttl: int, s: State, a: Action, key: string)
    requires Alone(hash, s, key) && !Overlaps(hash, s, a, key)
    ensures Alone(hash, Step(hash, ttl, s, a), key) && !Regresses(hash, s, a, key)
  {
    if a.Reply? {
      AloneReply(hash, ttl, s, a, key);
    } else if a.Store? {
      AloneStore(hash, ttl, s, a, key);
    }
  }

  lemma AloneReply(hash: string -> string, ttl: int, s: State, a: Action, key: string)
    requires a.Reply? && Alone(hash, s, key)
    ensures Alone(hash, Step(hash, ttl, s, a), key)
  {
  }

  lemma AloneStore(hash: string -> string, ttl: int, s: State, a: Action, key: string)
    requires a.Store? && Alone(hash, s, key)
    ensures Alone(hash, Step(hash, ttl, s, a), key) && !Regresses(hash, s, a, key)
  {
    hide Save;
  }

  lemma {:induction false} AloneNeverRegresses(hash: string -> string, ttl: int, s: State, actions: seq<Action>,
                                               key: string)
    requires Alone(hash, s, key) && NeverOverlaps(hash, ttl, s, actions, key)
    ensures NeverRegresses(hash, ttl, s, actions, key)
    decreases |actions|
  {
    hide Alone, Overlaps, Regresses, Step;
    if actions != [] {
      AloneStep(hash, ttl, s, actions[0], key);
      AloneNeverRegresses(hash, ttl, Step(hash, ttl, s, actions[0]), actions[1..], key);
    }
  }

  /** So if no call misses its look-up while another for the same token is under way, the cache always holds
      the newest answer written. */
  lemma NewestWithoutOverlap(hash: string -> string, ttl: int, start: int, actions: seq<Action>, key: string)
    requires NeverOverlaps(hash, ttl, Init(start), actions, key)
    ensures AlwaysNewest(hash, ttl, Init(start), actions, key)
  {
    AloneNeverRegresses(hash, ttl, Init(start), actions, key);
    CacheIsNewestExactly(hash, ttl, start, actions, key);
  }

  // ---- What overlapping calls can do ----

  /** Two overlapping calls: the slower one asked and was answered first, but writes last. */
  function OlderWins(older: Identity, newer: Identity): seq<Action> {
    [Begin(0, "t"), LookUp(0), Begin(1, "t"), LookUp(1), Reply(0, Some(older)), Pass(1), Reply(1, Some(newer)),
     Store(1), Store(0)]
  }

  lemma RunNothing(hash: string -> string, ttl: int, s: State)
    ensures Run(hash, ttl, s, []) == s
  {
  }

  lemma RunConcat(hash: string -> string, ttl: int, s: State, a: Action, rest: seq<Action>)
    ensures Run(hash, ttl, s, [a] + rest) == Run(hash, ttl, Step(hash, ttl, s, a), rest)
  {
    assert ([a] + rest)[1..] == rest;
  }

  /** Regressing does happen: a run in which an older answer overwrites a newer one. */
  lemma OlderAnswerCanOverwriteNewer(hash: string -> string, ttl: int, older: Identity, newer: Identity)
    requires older != newer
    ensures var s := Run(hash, ttl, Init(0), OlderWins(older, newer));
            && Answer("t", newer, 1) in s.answers && Answer("t", older, 0) in s.answers
            && hash("t") in s.entries && s.entries[hash("t")] == Entry(older, 1 + ttl)
  {
    hide Run, Step, Look, Save;
    var s0 := Init(0);
    var asked := s0.(calls := map[0 := Asking("t"), 1 := Asking("t")]);
    var tail := [Reply(0, Some(older)), Pass(1), Reply(1, Some(newer)), Store(1), Store(0)];
    BothAsk(hash, ttl, tail);
    assert OlderWins(older, newer) == [Begin(0, "t")] + ([LookUp(0)] + ([Begin(1, "t")] + ([LookUp(1)] + tail)));
    AnswersCross(hash, ttl, asked, older, newer);
  }

  lemma BothAsk(hash: string -> string, ttl: int, tail: seq<Action>)
    ensures Run(hash, ttl, Init(0), [Begin(0, "t")] + ([LookUp(0)] + ([Begin(1, "t")] + ([LookUp(1)] + tail))))
         == Run(hash, ttl, Init(0).(calls := map[0 := Asking("t"), 1 := Asking("t")]), tail)
  {
    hide Run;
    var s1 := Step(hash, ttl, Init(0), Begin(0, "t"));
    var s2 := Step(hash, ttl, s1, LookUp(0));
    var s3 := Step(hash, ttl, s2, Begin(1, "t"));
    RunConcat(hash, ttl, Init(0), Begin(0, "t"), [LookUp(0)] + ([Begin(1, "t")] + ([LookUp(1)] + tail)));
    RunConcat(hash, ttl, s1, LookUp(0), [Begin(1, "t")] + ([LookUp(1)] + tail));
    RunConcat(hash, ttl, s2, Begin(1, "t"), [LookUp(1)] + tail);
    RunConcat(hash, ttl, s3, LookUp(1), tail);
    assert s2.calls == map[0 := Asking("t")];
    assert Step(hash, ttl, s3, LookUp(1)).calls == map[0 := Asking("t"), 1 := Asking("t")];
  }

  lemma AnswersCross(hash: string -> string, ttl: int, s: State, older: Identity, newer: Identity)
    requires s == Init(0).(calls := map[0 := Asking("t"), 1 := Asking("t")])
    ensures var s' := Run(hash, ttl, s, [Reply(0, Some(older)), Pass(1), Reply(1, Some(newer)), Store(1), Store(0)]);
            && Answer("t", newer, 1) in s'.answers && Answer("t", older, 0) in s'.answers
            && hash("t") in s'.entries && s'.entries[hash("t")] == Entry(older, 1 + ttl)
  {
    hide Run, Step;
    var a, b, c, d, e := Reply(0, Some(older)), Pass(1), Reply(1, Some(newer)), Store(1), Store(0);
    var s1 := Step(hash, ttl, s, a);
    var s2 := Step(hash, ttl, s1, b);
    var s3 := Step(hash, ttl, s2, c);
    var s4 := Step(hash, ttl, s3, d);
    RunConcat(hash, ttl, s, a, [b, c, d, e]);
    RunConcat(hash, ttl, s1, b, [c, d, e]);
    RunConcat(hash, ttl, s2, c, [d, e]);
    RunConcat(hash, ttl, s3, d, [e]);
    RunConcat(hash, ttl, s4, e, []);
    RunNothing(hash, ttl, Step(hash, ttl, s4, e));
    assert [a, b, c, d, e] == [a] + [b, c, d, e] && [b, c, d, e] == [b] + [c, d, e];
    assert [c, d, e] == [c] + [d, e] && [d, e] == [d] + [e] && [e] == [e] + [];
    BothAnswered(hash, ttl, s, older, newer);
    BothStored(hash, ttl, s3, older, newer);
  }

  lemma BothAnswered(hash: string -> string, ttl: int, s: State, older: Identity, newer: Identity)
    requires s == Init(0).(calls := map[0 := Asking("t"), 1 := Asking("t")])
    ensures var s3 := Step(hash, ttl, Step(hash, ttl, Step(hash, ttl, s, Reply(0, Some(older))), Pass(1)),
                           Reply(1, Some(newer)));
            && s3.calls == map[0 := Answered("t", older, 0), 1 := Answered("t", newer, 1)]
            && s3.answers == {Answer("t", older, 0), Answer("t", newer, 1)} && s3.now == 1
  {
  }

  lemma BothStored(hash: string -> string, ttl: int, s: State, older: Identity, newer: Identity)
    requires s.calls == map[0 := Answered("t", older, 0), 1 := Answered("t", newer, 1)]
    ensures var s' := Step(hash, ttl, Step(hash, ttl, s, Store(1)), Store(0));
            && s'.answers == s.answers
            && hash("t") in s'.entries && s'.entries[hash("t")] == Entry(older, s.now + ttl)
  {
    assert Step(hash, ttl, s, Store(1)).calls == map[0 := Answered("t", older, 0)];
  }
}
