/** internal/notify: mark a notification's key, and only then send it. */
module Notify {
  import opened Base
  import opened Store

  datatype Level = Unset | Info | Warning

  datatype Notification = Notification(title: string, body: string, deeplink: string, level: Level,
                                       dedupeKey: string)

  /** One notification of a batch, with what the database does if its key gets marked. */
  datatype Attempt = Attempt(n: Notification, mark: Response)

  /** A Dispatch call in progress: the dedupe table, the sends so far, and whether it returned an error. */
  datatype Delivery = Delivery(sent: SentTable, sends: seq<Notification>, failed: bool)

  /** One turn of Dispatch's loop; after an error return no further turn happens. */
  function DispatchOne(d: Delivery, a: Attempt): Delivery {
    var key := a.n.dedupeKey;
    if d.failed then d
    else if key == "" then d.(sends := d.sends + [a.n])
    else if a.mark.fault != Works then d.(sent := Marked(d.sent, key, a.mark), failed := true)
    else if key in d.sent then d
    else d.(sent := d.sent[key := a.mark.at], sends := d.sends + [a.n])
  }

  function DispatchAll(d: Delivery, batch: seq<Attempt>): Delivery {
    if batch == [] then d
    else DispatchOne(DispatchAll(d, batch[..|batch| - 1]), batch[|batch| - 1])
  }

  /** The delivery endpoint; posts keeps every Send call, whether or not the POST got through. */
  class Sender {
    var posts: seq<(int, Notification)>

    constructor ()
      ensures posts == []
    {
      posts := [];
    }

    method Send(user: int, n: Notification, fails: bool) returns (err: bool)
      modifies this
      ensures posts == old(posts) + [(user, n)]
      ensures err == fails
    {
      posts := posts + [(user, n)];
      err := fails;
    }
  }

  function To(user: int, ns: seq<Notification>): seq<(int, Notification)> {
    seq(|ns|, i requires 0 <= i < |ns| => (user, ns[i]))
  }

  class Dispatcher {
    const dedupe: DB
    const sender: Sender

    constructor (dedupe: DB, sender: Sender)
      ensures this.dedupe == dedupe && this.sender == sender
    {
      this.dedupe, this.sender := dedupe, sender;
    }

    /** sendFails says which POSTs fail; it influences nothing but the log. */
    method Dispatch(user: int, batch: seq<Attempt>, sendFails: int -> bool) returns (err: bool)
      modifies dedupe`sent, sender
      ensures var d := DispatchAll(Delivery(old(dedupe.sent), [], false), batch);
              && dedupe.sent == d.sent && err == d.failed
              && sender.posts == old(sender.posts) + To(user, d.sends)
              && |sender.posts| == |old(sender.posts)| + |d.sends|
              && forall i :: 0 <= i < |d.sends| ==> sender.posts[|old(sender.posts)| + i] == (user, d.sends[i])
    {
      ghost var start := Delivery(dedupe.sent, [], false);
      ghost var before := sender.posts;
      for i := 0 to |batch|
        invariant var d := DispatchAll(start, batch[..i]);
                  dedupe.sent == d.sent && sender.posts == before + To(user, d.sends) && !d.failed
      {
        ghost var d := DispatchAll(start, batch[..i]);
        assert batch[..i + 1][..i] == batch[..i];
        var n := batch[i].n;
        var skip := false;
        if n.dedupeKey != "" {
          var isNew, markErr := dedupe.MarkSent(n.dedupeKey, batch[i].mark);
          if markErr {
            FailedStays(DispatchAll(start, batch[..i + 1]), batch[i + 1..]);
            DispatchConcat(start, batch[..i + 1], batch[i + 1..]);
            assert batch == batch[..i + 1] + batch[i + 1..];
            return true;
          }
          skip := !isNew;
        }
        if !skip {
          var _ := sender.Send(user, n, sendFails(i));
          assert To(user, d.sends + [n]) == To(user, d.sends) + [(user, n)];
        }
      }
      assert batch[..|batch|] == batch;
      err := false;
    }
  }

  lemma {:induction false} FailedStays(d: Delivery, batch: seq<Attempt>)
    requires d.failed
    ensures DispatchAll(d, batch) == d
  {
    if batch != [] {
      FailedStays(d, batch[..|batch| - 1]);
    }
  }

  /** Dispatching a ++ b is dispatching a, then b from where a left off. */
  lemma {:induction false} DispatchConcat(d: Delivery, a: seq<Attempt>, b: seq<Attempt>)
    ensures DispatchAll(d, a + b) == DispatchAll(DispatchAll(d, a), b)
  {
    if b == [] {
      assert a + b == a;
    } else {
      assert (a + b)[..|a + b| - 1] == a + b[..|b| - 1];
      DispatchConcat(d, a, b[..|b| - 1]);
    }
  }

  /** How often a key is sent. */
  function TimesSent(sends: seq<Notification>, key: string): nat {
    if sends == [] then 0
    else TimesSent(sends[..|sends| - 1], key) + if sends[|sends| - 1].dedupeKey == key then 1 else 0
  }

  lemma OneSendMore(sends: seq<Notification>, n: Notification, key: string)
    ensures TimesSent(sends + [n], key) == TimesSent(sends, key) + if n.dedupeKey == key then 1 else 0
  {
    assert (sends + [n])[..|sends|] == sends;
  }

  // ---- The reference: keep each notification whose key occurs here first ----

  predicate IsFirst(seen: set<string>, ns: seq<Notification>, i: nat)
    requires i < |ns|
  {
    var key := ns[i].dedupeKey;
    key == "" || (key !in seen && forall j :: 0 <= j < i ==> ns[j].dedupeKey != key)
  }

  /** The stable filter by first occurrence of key. */
  function FirstOccurrences(seen: set<string>, ns: seq<Notification>): seq<Notification> {
    if ns == [] then []
    else
      var last := |ns| - 1;
      FirstOccurrences(seen, ns[..last]) + if IsFirst(seen, ns, last) then [ns[last]] else []
  }

  function KeysOf(ns: seq<Notification>): set<string> {
    set i | 0 <= i < |ns| && ns[i].dedupeKey != "" :: ns[i].dedupeKey
  }

  predicate Keyed(ns: seq<Notification>) {
    forall i :: 0 <= i < |ns| ==> ns[i].dedupeKey != ""
  }

  /** A batch in which the database works throughout. */
  function Smooth(ns: seq<Notification>, at: int): (batch: seq<Attempt>)
    ensures |batch| == |ns|
  {
    seq(|ns|, i requires 0 <= i < |ns| => Attempt(ns[i], Response(Works, at)))
  }

  function Begin(sent: SentTable): Delivery {
    Delivery(sent, [], false)
  }

  /** A batch in which the database answers every mark alike. */
  function Batch(ns: seq<Notification>, mark: Response): seq<Attempt> {
    seq(|ns|, i requires 0 <= i < |ns| => Attempt(ns[i], mark))
  }

  /** Dispatch without its loop, for the batches the companion's own callers make. */
  lemma DispatchAtMostOne(sent: SentTable, ns: seq<Notification>, mark: Response)
    requires |ns| <= 1 && Keyed(ns)
    ensures DispatchAll(Begin(sent), Batch(ns, mark)) ==
            if ns == [] then Begin(sent)
            else if mark.fault != Works then Delivery(Marked(sent, ns[0].dedupeKey, mark), [], true)
            else if ns[0].dedupeKey in sent then Begin(sent)
            else Delivery(sent[ns[0].dedupeKey := mark.at], ns, false)
  {
    var batch := Batch(ns, mark);
    if ns != [] {
      assert batch[..0] == [] && DispatchAll(Begin(sent), batch[..0]) == Begin(sent);
      assert batch[0] == Attempt(ns[0], mark);
      assert [] + [ns[0]] == ns;
    }
  }

  function KeyOf(n: Notification): set<string> {
    if n.dedupeKey == "" then {} else {n.dedupeKey}
  }

  lemma KeysOfLast(ns: seq<Notification>)
    requires ns != []
    ensures KeysOf(ns) == KeysOf(ns[..|ns| - 1]) + KeyOf(ns[|ns| - 1])
  {
    var init := ns[..|ns| - 1];
    assert forall i :: 0 <= i < |init| ==> init[i] == ns[i];
  }

  /** Being first is having a key not seen before. */
  lemma FirstIsNew(seen: set<string>, ns: seq<Notification>)
    requires ns != []
    ensures IsFirst(seen, ns, |ns| - 1) <==>
            KeyOf(ns[|ns| - 1]) == {} || ns[|ns| - 1].dedupeKey !in seen + KeysOf(ns[..|ns| - 1])
  {
    var init := ns[..|ns| - 1];
    assert forall i :: 0 <= i < |init| ==> init[i] == ns[i];
  }

  /** Dispatch refines the filter: without faults it sends exactly the first occurrences, in order,
      and records exactly the batch's keys on top of those already there. */
  lemma {:induction false} DispatchIsFilter(sent: SentTable, ns: seq<Notification>, at: int)
    ensures var d := DispatchAll(Begin(sent), Smooth(ns, at));
            !d.failed && d.sends == FirstOccurrences(sent.Keys, ns) && d.sent.Keys == sent.Keys + KeysOf(ns)
  {
    hide IsFirst;
    if ns != [] {
      hide KeysOf;
      var last := |ns| - 1;
      assert Smooth(ns, at)[..last] == Smooth(ns[..last], at);
      DispatchIsFilter(sent, ns[..last], at);
      KeysOfLast(ns);
      FirstIsNew(sent.Keys, ns);
      var before := FirstOccurrences(sent.Keys, ns[..last]);
      assert before + [] == before;
    }
  }

  /** Being first in a ++ b, for a position in b, is being first in b once a's keys are seen. */
  lemma FirstInConcat(seen: set<string>, a: seq<Notification>, b: seq<Notification>, i: nat)
    requires i < |b|
    ensures IsFirst(seen, a + b, |a| + i) <==> IsFirst(seen + KeysOf(a), b, i)
  {
    var c, key := a + b, b[i].dedupeKey;
    assert forall j :: 0 <= j < |b| ==> c[|a| + j] == b[j];
    if key != "" && IsFirst(seen, c, |a| + i) {
      forall j | 0 <= j < |a| ensures a[j].dedupeKey != key { assert c[j] == a[j]; }
      forall j | 0 <= j < i ensures b[j].dedupeKey != key { assert c[|a| + j] == b[j]; }
    } else if key != "" && IsFirst(seen + KeysOf(a), b, i) {
      forall j | 0 <= j < |a| + i ensures c[j].dedupeKey != key {
        if j < |a| {
          assert a[j].dedupeKey != "" ==> a[j].dedupeKey in KeysOf(a);
        } else {
          assert b[j - |a|].dedupeKey != key;
        }
      }
    }
  }

  /** Filtering a ++ b keeps a's first occurrences and then b's, b seeing a's keys as already seen. */
  lemma {:induction false} FilterConcat(seen: set<string>, a: seq<Notification>, b: seq<Notification>)
    ensures FirstOccurrences(seen, a + b) == FirstOccurrences(seen, a) + FirstOccurrences(seen + KeysOf(a), b)
  {
    if b == [] {
      assert a + b == a;
    } else {
      var c, last := a + b, |b| - 1;
      assert c[..|c| - 1] == a + b[..last];
      FilterConcat(seen, a, b[..last]);
      FirstInConcat(seen, a, b, last);
      var tail := if IsFirst(seen, c, |c| - 1) then [b[last]] else [];
      assert FirstOccurrences(seen, c) == FirstOccurrences(seen, a + b[..last]) + tail;
      assert IsFirst(seen + KeysOf(a), b, last) <==> IsFirst(seen, c, |c| - 1);
      assert FirstOccurrences(seen + KeysOf(a), b) == FirstOccurrences(seen + KeysOf(a), b[..last]) + tail;
    }
  }

  lemma KeysOfConcat(a: seq<Notification>, b: seq<Notification>)
    ensures KeysOf(a + b) == KeysOf(a) + KeysOf(b)
  {
    forall k | k in KeysOf(a) + KeysOf(b) ensures k in KeysOf(a + b) {
      if k in KeysOf(a) {
        var i :| 0 <= i < |a| && a[i].dedupeKey == k;
        assert (a + b)[i].dedupeKey == k;
      } else {
        var i :| 0 <= i < |b| && b[i].dedupeKey == k;
        assert (a + b)[|a| + i].dedupeKey == k;
      }
    }
  }

  /** The filter invents nothing. */
  lemma {:induction false} FilterKeeps(seen: set<string>, ns: seq<Notification>)
    ensures forall n :: n in FirstOccurrences(seen, ns) ==> n in ns
    ensures Keyed(ns) ==> forall n :: n in FirstOccurrences(seen, ns) ==> n.dedupeKey in KeysOf(ns)
  {
    if ns != [] {
      FilterKeeps(seen, ns[..|ns| - 1]);
    }
    forall n | n in ns && n.dedupeKey != "" ensures n.dedupeKey in KeysOf(ns) {
      var i :| 0 <= i < |ns| && ns[i] == n;
    }
  }

  /** Two fault-free Dispatch calls, for a and then b, send what one call for a ++ b sends. */
  lemma SplitBatch(sent: SentTable, a: seq<Notification>, b: seq<Notification>, at: int)
    ensures var whole := DispatchAll(Begin(sent), Smooth(a + b, at));
            var first := DispatchAll(Begin(sent), Smooth(a, at));
            var second := DispatchAll(Begin(first.sent), Smooth(b, at));
            whole.sends == first.sends + second.sends && whole.sent.Keys == second.sent.Keys
  {
    DispatchIsFilter(sent, a + b, at);
    DispatchIsFilter(sent, a, at);
    var first := DispatchAll(Begin(sent), Smooth(a, at));
    DispatchIsFilter(first.sent, b, at);
    FilterConcat(sent.Keys, a, b);
    KeysOfConcat(a, b);
  }

  // ---- Retrying after a dedupe error ----

  /** An attempt that stops with a database error at notification k. */
  function CutAt(ns: seq<Notification>, k: nat, fault: Fault, at: int): seq<Attempt>
    requires k < |ns|
  {
    Smooth(ns, at)[k := Attempt(ns[k], Response(fault, at))]
  }

  /** What a cut attempt leaves behind: the fault-free result for the first k, then the failed insert. */
  lemma CutAttempt(sent: SentTable, ns: seq<Notification>, k: nat, fault: Fault, at: int)
    requires k < |ns| && ns[k].dedupeKey != "" && fault != Works
    ensures var d := DispatchAll(Begin(sent), CutAt(ns, k, fault, at));
            var prefix := DispatchAll(Begin(sent), Smooth(ns[..k], at));
            d == Delivery(Marked(prefix.sent, ns[k].dedupeKey, Response(fault, at)), prefix.sends, true)
  {
    var cut := CutAt(ns, k, fault, at);
    assert cut[..k] == Smooth(ns[..k], at);
    assert cut[..k + 1][..k] == cut[..k];
    assert cut == cut[..k + 1] + cut[k + 1..];
    DispatchIsFilter(sent, ns[..k], at);
    DispatchConcat(Begin(sent), cut[..k + 1], cut[k + 1..]);
    FailedStays(DispatchAll(Begin(sent), cut[..k + 1]), cut[k + 1..]);
  }

  lemma {:induction false} AllSeen(seen: set<string>, ns: seq<Notification>)
    requires KeysOf(ns) <= seen
    ensures FirstOccurrences(seen, ns) == [] <==> Keyed(ns)
  {
    if ns != [] {
      var last := |ns| - 1;
      assert KeysOf(ns[..last]) <= KeysOf(ns) by {
        forall i | 0 <= i < last && ns[i].dedupeKey != "" ensures ns[i].dedupeKey in KeysOf(ns) { }
      }
      AllSeen(seen, ns[..last]);
      assert ns[last].dedupeKey != "" ==> ns[last].dedupeKey in KeysOf(ns);
      assert Keyed(ns) <==> Keyed(ns[..last]) && ns[last].dedupeKey != "";
    }
  }

  /** Adding a key that a batch does not use changes nothing for the batch. */
  lemma {:induction false} SeenElsewhere(seen: set<string>, key: string, ns: seq<Notification>)
    requires forall i :: 0 <= i < |ns| ==> ns[i].dedupeKey != key
    ensures FirstOccurrences(seen + {key}, ns) == FirstOccurrences(seen, ns)
  {
    if ns != [] {
      SeenElsewhere(seen, key, ns[..|ns| - 1]);
    }
  }

  /** Filtering a, then all of a ++ b, repeats exactly a's unkeyed notifications. */
  lemma PrefixThenAll(seen: set<string>, a: seq<Notification>, b: seq<Notification>)
    ensures FirstOccurrences(seen, a) + FirstOccurrences(seen + KeysOf(a), a + b) == FirstOccurrences(seen, a + b)
            <==> Keyed(a)
  {
    var seen' := seen + KeysOf(a);
    FilterConcat(seen, a, b);
    FilterConcat(seen', a, b);
    assert seen' + KeysOf(a) == seen';
    AllSeen(seen', a);
    var first, again, rest := FirstOccurrences(seen, a), FirstOccurrences(seen', a), FirstOccurrences(seen', b);
    assert |first + (again + rest)| == |first + rest| + |again|;
    assert again == [] ==> again + rest == rest;
  }

  /** The same with one more key seen in between: that key is dropped from the whole. */
  lemma PrefixThenAllBut(seen: set<string>, key: string, a: seq<Notification>, b: seq<Notification>)
    requires Keyed(a) && forall i :: 0 <= i < |a| ==> a[i].dedupeKey != key
    ensures FirstOccurrences(seen, a) + FirstOccurrences(seen + KeysOf(a) + {key}, a + b)
         == FirstOccurrences(seen + {key}, a + b)
  {
    SeenElsewhere(seen, key, a);
    PrefixThenAll(seen + {key}, a, b);
    assert seen + {key} + KeysOf(a) == seen + KeysOf(a) + {key};
  }

  lemma {:induction false} NeverSeen(seen: set<string>, ns: seq<Notification>)
    ensures forall n :: n in FirstOccurrences(seen, ns) ==> n.dedupeKey == "" || n.dedupeKey !in seen
    ensures Keyed(ns) ==> Keyed(FirstOccurrences(seen, ns))
  {
    if ns != [] {
      NeverSeen(seen, ns[..|ns| - 1]);
    }
  }

  /** A first attempt cut short at k by an insert that took no effect, then a full retry. Together they
      send what one fault-free attempt sends if and only if everything before the cut is keyed. */
  lemma {:induction false} RetryAfterUnappliedFault(sent: SentTable, ns: seq<Notification>, k: nat, at: int)
    requires k < |ns| && ns[k].dedupeKey != ""
    ensures var cut := DispatchAll(Begin(sent), CutAt(ns, k, FailsUnapplied, at));
            var retry := DispatchAll(Begin(cut.sent), Smooth(ns, at));
            var smooth := DispatchAll(Begin(sent), Smooth(ns, at));
            && retry.sent.Keys == smooth.sent.Keys
            && (cut.sends + retry.sends == smooth.sends <==> Keyed(ns[..k]))
  {
    CutAttempt(sent, ns, k, FailsUnapplied, at);
    var cut := DispatchAll(Begin(sent), CutAt(ns, k, FailsUnapplied, at));
    var a := ns[..k];
    DispatchIsFilter(sent, a, at);
    DispatchIsFilter(sent, ns, at);
    DispatchIsFilter(cut.sent, ns, at);
    PrefixThenAll(sent.Keys, a, ns[k..]);
    assert ns == a + ns[k..];
    assert KeysOf(a) <= KeysOf(ns) by {
      forall i | 0 <= i < k && a[i].dedupeKey != "" ensures a[i].dedupeKey in KeysOf(ns) { assert ns[i] == a[i]; }
    }
  }

  /** If instead the failing insert took effect, the retry loses the notification at the cut: the two
      attempts together send what one attempt would with that key recorded beforehand. */
  lemma {:induction false} RetryAfterAppliedFault(sent: SentTable, ns: seq<Notification>, k: nat, at: int)
    requires k < |ns| && Keyed(ns)
    requires IsFirst(sent.Keys, ns, k)
    ensures var cut := DispatchAll(Begin(sent), CutAt(ns, k, FailsApplied, at));
            var retry := DispatchAll(Begin(cut.sent), Smooth(ns, at));
            && cut.sends + retry.sends == FirstOccurrences(sent.Keys + {ns[k].dedupeKey}, ns)
            && forall n :: n in cut.sends + retry.sends ==> n.dedupeKey != ns[k].dedupeKey
  {
    CutAttempt(sent, ns, k, FailsApplied, at);
    var cut := DispatchAll(Begin(sent), CutAt(ns, k, FailsApplied, at));
    var a, key := ns[..k], ns[k].dedupeKey;
    DispatchIsFilter(sent, a, at);
    DispatchIsFilter(cut.sent, ns, at);
    assert cut.sent.Keys == sent.Keys + KeysOf(a) + {key};
    PrefixThenAllBut(sent.Keys, key, a, ns[k..]);
    assert ns == a + ns[k..];
    NeverSeen(sent.Keys + {key}, ns);
  }

  /** Any number of attempts, each cut by an insert that took no effect, then one that runs through:
      in total exactly the sends of a single fault-free attempt. */
  function Retries(sent: SentTable, ns: seq<Notification>, cuts: seq<nat>, at: int): Delivery
    requires forall i :: 0 <= i < |cuts| ==> cuts[i] < |ns|
    decreases |cuts|
  {
    if cuts == [] then DispatchAll(Begin(sent), Smooth(ns, at))
    else
      var d := DispatchAll(Begin(sent), CutAt(ns, cuts[0], FailsUnapplied, at));
      var rest := Retries(d.sent, ns, cuts[1..], at);
      rest.(sends := d.sends + rest.sends)
  }

  lemma {:induction false} RetriesLoseAndRepeatNothing(sent: SentTable, ns: seq<Notification>, cuts: seq<nat>, at: int)
    requires Keyed(ns) && forall i :: 0 <= i < |cuts| ==> cuts[i] < |ns|
    ensures var total := Retries(sent, ns, cuts, at);
            var smooth := DispatchAll(Begin(sent), Smooth(ns, at));
            total.sends == smooth.sends && total.sent.Keys == smooth.sent.Keys && !total.failed
    decreases |cuts|
  {
    if cuts == [] {
      DispatchIsFilter(sent, ns, at);
    } else {
      var d := DispatchAll(Begin(sent), CutAt(ns, cuts[0], FailsUnapplied, at));
      RetryAfterUnappliedFault(sent, ns, cuts[0], at);
      RetriesLoseAndRepeatNothing(d.sent, ns, cuts[1..], at);
    }
  }
}
