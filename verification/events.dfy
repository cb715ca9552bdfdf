/** Webhook event lists: COMPANION_WEBHOOK_EVENTS as parsed by internal/config, and the comma-separated
    column internal/store writes and reads back. */
module Events {
  import opened Base

  const KNOWN: seq<string> := ["task.reminder.fired", "task.overdue", "tasks.overdue"]

  // ---- strings.Split on a comma, strings.Join, strings.TrimSpace ----

  function Split(s: string): (parts: seq<string>)
    ensures parts != []
  {
    if s == "" then [""]
    else
      var rest := Split(s[1..]);
      if s[0] == ',' then [""] + rest else [[s[0]] + rest[0]] + rest[1..]
  }

  function Join(parts: seq<string>): string {
    if parts == [] then "" else if |parts| == 1 then parts[0] else parts[0] + "," + Join(parts[1..])
  }

  /** unicode.IsSpace. */
  predicate IsSpace(c: char) {
    || '\t' <= c <= '\r' || c == ' ' || c == '\U{0085}' || c == '\U{00A0}' || c == '\U{1680}'
    || '\U{2000}' <= c <= '\U{200a}' || c == '\U{2028}' || c == '\U{2029}' || c == '\U{202f}'
    || c == '\U{205f}' || c == '\U{3000}'
  }

  function TrimLeft(s: string): string {
    if s != "" && IsSpace(s[0]) then TrimLeft(s[1..]) else s
  }

  function TrimRight(s: string): string {
    if s != "" && IsSpace(s[|s| - 1]) then TrimRight(s[..|s| - 1]) else s
  }

  function TrimSpace(s: string): string {
    TrimRight(TrimLeft(s))
  }

  /** No comma, not empty, and no space at either end. */
  predicate Clean(s: string) {
    s != "" && ',' !in s && !IsSpace(s[0]) && !IsSpace(s[|s| - 1])
  }

  predicate AllClean(parts: seq<string>) {
    forall i :: 0 <= i < |parts| ==> Clean(parts[i])
  }

  lemma {:induction false} SplitOne(s: string)
    requires ',' !in s
    ensures Split(s) == [s]
  {
    if s != "" {
      SplitOne(s[1..]);
      assert s == [s[0]] + s[1..];
    }
  }

  lemma {:induction false} SplitAfter(a: string, b: string)
    requires ',' !in a
    ensures Split(a + "," + b) == [a] + Split(b)
  {
    var s := a + "," + b;
    if a == "" {
      assert s[1..] == b;
    } else {
      assert s[1..] == a[1..] + "," + b;
      SplitAfter(a[1..], b);
      assert a == [a[0]] + a[1..];
    }
  }

  /** Splitting undoes joining. */
  lemma {:induction false} SplitJoin(parts: seq<string>)
    requires parts != [] && forall i :: 0 <= i < |parts| ==> ',' !in parts[i]
    ensures Split(Join(parts)) == parts
  {
    if |parts| == 1 {
      SplitOne(parts[0]);
    } else {
      SplitJoin(parts[1..]);
      SplitAfter(parts[0], Join(parts[1..]));
      assert parts == [parts[0]] + parts[1..];
    }
  }

  /** And joining undoes splitting, into parts without a comma. */
  lemma {:induction false} JoinSplit(s: string)
    ensures Join(Split(s)) == s && forall part :: part in Split(s) ==> ',' !in part
  {
    if s != "" {
      JoinSplit(s[1..]);
      var rest := Split(s[1..]);
      assert s == [s[0]] + s[1..];
      if s[0] == ',' {
        assert ([""] + rest)[1..] == rest;
        assert "" + "," + Join(rest) == s;
      } else {
        var first := [s[0]] + rest[0];
        assert ([first] + rest[1..])[1..] == rest[1..];
        JoinHead(rest, first, s[0]);
        assert rest[0] in rest;
      }
    }
  }

  lemma JoinHead(rest: seq<string>, first: string, c: char)
    requires rest != [] && first == [c] + rest[0]
    ensures Join([first] + rest[1..]) == [c] + Join(rest)
  {
    if |rest| > 1 {
      assert ([first] + rest[1..])[1..] == rest[1..];
      assert first + "," + Join(rest[1..]) == [c] + (rest[0] + "," + Join(rest[1..]));
    }
  }

  // ---- Trimming ----

  /** The characters Unicode counts as white space. */
  lemma Spaces(c: char)
    ensures IsSpace(c) <==>
            c in "\t\n\U{000B}\U{000C}\r \U{0085}\U{00A0}\U{1680}\U{2000}\U{2001}\U{2002}\U{2003}\U{2004}\U{2005}"
              || c in "\U{2006}\U{2007}\U{2008}\U{2009}\U{200A}\U{2028}\U{2029}\U{202F}\U{205F}\U{3000}"
  {
  }

  predicate Blank(s: string) {
    forall i :: 0 <= i < |s| ==> IsSpace(s[i])
  }

  /** No space at either end. */
  predicate Trimmed(s: string) {
    s != "" ==> !IsSpace(s[0]) && !IsSpace(s[|s| - 1])
  }

  lemma {:induction false} TrimLeftBlank(left: string, s: string)
    requires Blank(left) && (s != "" ==> !IsSpace(s[0]))
    ensures TrimLeft(left + s) == s
  {
    if left == "" {
      assert left + s == s;
    } else {
      assert (left + s)[1..] == left[1..] + s;
      TrimLeftBlank(left[1..], s);
    }
  }

  lemma {:induction false} TrimRightBlank(s: string, right: string)
    requires Blank(right) && (s != "" ==> !IsSpace(s[|s| - 1]))
    ensures TrimRight(s + right) == s
  {
    if right == "" {
      assert s + right == s;
    } else {
      var t := s + right;
      assert t[..|t| - 1] == s + right[..|right| - 1];
      TrimRightBlank(s, right[..|right| - 1]);
    }
  }

  /** Whatever white space surrounds a text goes, and nothing else. */
  lemma TrimSpaceStrips(left: string, s: string, right: string)
    requires Blank(left) && Blank(right) && Trimmed(s)
    ensures TrimSpace(left + s + right) == s
  {
    assert left + s + right == left + (s + right);
    if s == "" {
      assert left + s + right == left + right + "";
      assert Blank(left + right);
      TrimLeftBlank(left + right, "");
    } else {
      TrimLeftBlank(left, s + right);
      TrimRightBlank(s, right);
    }
  }

  // ---- What both loops compute ----

  /** The trimmed non-empty parts, in order. */
  function Parts(raw: seq<string>): seq<string> {
    if raw == [] then []
    else
      var p := TrimSpace(raw[|raw| - 1]);
      Parts(raw[..|raw| - 1]) + if p == "" then [] else [p]
  }

  /** Each string once, where it occurs first. */
  function Unique(xs: seq<string>): seq<string> {
    if xs == [] then []
    else
      var init, x := xs[..|xs| - 1], xs[|xs| - 1];
      Unique(init) + if x in init then [] else [x]
  }

  lemma {:induction false} PartsOfClean(parts: seq<string>)
    requires AllClean(parts)
    ensures Parts(parts) == parts
  {
    if parts != [] {
      PartsOfClean(parts[..|parts| - 1]);
      assert Clean(parts[|parts| - 1]);
      assert parts == parts[..|parts| - 1] + [parts[|parts| - 1]];
    }
  }

  /** Unique keeps exactly the strings there are, each once. */
  lemma {:induction false} UniqueIsASet(xs: seq<string>)
    ensures Distinct(Unique(xs)) && (Unique(xs) == [] <==> xs == [])
    ensures forall x :: x in Unique(xs) <==> x in xs
  {
    if xs != [] {
      var init, x := xs[..|xs| - 1], xs[|xs| - 1];
      UniqueIsASet(init);
      assert xs == init + [x];
      assert Unique(xs) == Unique(init) + if x in init then [] else [x];
    }
  }

  /** And keeps them in the order of their first occurrences. */
  lemma {:induction false} UniqueKeepsOrder(xs: seq<string>, i: nat, j: nat)
    requires i < |xs| && j < |xs| && xs[i] !in xs[..i] && xs[j] !in xs[..j] && i < j
    ensures exists k, l :: 0 <= k < l < |Unique(xs)| && Unique(xs)[k] == xs[i] && Unique(xs)[l] == xs[j]
  {
    var init, x := xs[..|xs| - 1], xs[|xs| - 1];
    if j < |init| {
      assert init[..i] == xs[..i] && init[..j] == xs[..j];
      UniqueKeepsOrder(init, i, j);
      var k, l :| 0 <= k < l < |Unique(init)| && Unique(init)[k] == init[i] && Unique(init)[l] == init[j];
      assert Unique(xs)[k] == xs[i] && Unique(xs)[l] == xs[j];
    } else {
      UniqueIsASet(init);
      assert init[i] in init;
      var k :| 0 <= k < |Unique(init)| && Unique(init)[k] == xs[i];
      assert Unique(xs)[k] == xs[i] && Unique(xs)[|Unique(init)|] == xs[j];
    }
  }

  lemma {:induction false} UniqueOfDistinct(xs: seq<string>)
    requires Distinct(xs)
    ensures Unique(xs) == xs
  {
    if xs != [] {
      UniqueOfDistinct(xs[..|xs| - 1]);
      assert xs == xs[..|xs| - 1] + [xs[|xs| - 1]];
    }
  }

  // ---- The configuration ----

  method Contains(haystack: seq<string>, needle: string) returns (found: bool)
    ensures found <==> needle in haystack
  {
    for i := 0 to |haystack|
      invariant needle !in haystack[..i]
    {
      if haystack[i] == needle {
        return true;
      }
    }
    assert haystack[..|haystack|] == haystack;
    found := false;
  }

  lemma TheKnownEvents(x: string)
    ensures x in KNOWN <==> x == "task.reminder.fired" || x == "task.overdue" || x == "tasks.overdue"
  {
  }

  predicate AllKnown(xs: seq<string>) {
    forall x :: x in xs ==> x in KNOWN
  }

  /** The events accepted for a raw setting: every part must be known and there must be one. */
  function EventsOf(raw: string): Option<seq<string>> {
    var parts := Parts(Split(raw));
    if !AllKnown(parts) || parts == [] then None else Some(Unique(parts))
  }

  lemma UniqueSnoc(xs: seq<string>, x: string)
    ensures Unique(xs + [x]) == Unique(xs) + if x in xs then [] else [x]
  {
    assert (xs + [x])[..|xs|] == xs;
  }

  lemma PartsSnoc(raw: seq<string>, i: nat)
    requires i < |raw|
    ensures Parts(raw[..i + 1]) == Parts(raw[..i]) + if TrimSpace(raw[i]) == "" then [] else [TrimSpace(raw[i])]
  {
    assert raw[..i + 1][..i] == raw[..i];
  }

  lemma PartsOfAll(raw: seq<string>, i: nat)
    requires i <= |raw|
    ensures Parts(raw[..i]) <= Parts(raw)
  {
    hide TrimSpace, Parts;
    PartsConcat(raw[..i], raw[i..]);
    assert raw == raw[..i] + raw[i..];
  }

  method ParseWebhookEvents(raw: string) returns (events: Option<seq<string>>)
    ensures events == EventsOf(raw)
  {
    hide Split, TrimSpace, Parts, Unique;
    var parts := Split(raw);
    var seen: set<string> := {};
    var out: seq<string> := [];
    NoParts();
    for i := 0 to |parts|
      invariant AllKnown(Parts(parts[..i]))
      invariant out == Unique(Parts(parts[..i]))
      invariant forall x :: x in seen <==> x in Parts(parts[..i])
    {
      var e := TrimSpace(parts[i]);
      ghost var before := Parts(parts[..i]);
      PartsSnoc(parts, i);
      if e == "" {
        assert before + [] == before;
        continue;
      }
      var known := Contains(KNOWN, e);
      if !known {
        PartsOfAll(parts, i + 1);
        assert e == Parts(parts[..i + 1])[|before|];
        assert e == Parts(parts)[|before|];
        return None;
      }
      UniqueSnoc(before, e);
      assert out + [] == out;
      if e !in seen {
        seen := seen + {e};
        out := out + [e];
      }
    }
    assert parts[..|parts|] == parts;
    UniqueIsASet(Parts(parts));
    events := if |out| == 0 then None else Some(out);
  }

  lemma NoParts()
    ensures Parts([]) == [] && Unique([]) == []
  {
  }

  lemma {:induction false} PartsConcat(a: seq<string>, b: seq<string>)
    ensures Parts(a + b) == Parts(a) + Parts(b)
  {
    if b == [] {
      assert a + b == a;
    } else {
      assert (a + b)[..|a + b| - 1] == a + b[..|b| - 1];
      PartsConcat(a, b[..|b| - 1]);
    }
  }

  lemma KnownIsClean(x: string)
    requires x in KNOWN
    ensures Clean(x)
  {
  }

  // ---- The column ----

  function SplitEvents(s: string): seq<string> {
    if s == "" then [] else Parts(Split(s))
  }

  /** splitEvents filters its parts in place: the write position never passes the read position, so no part
      is overwritten before it is read. */
  method SplitEventsInPlace(s: string) returns (out: seq<string>)
    ensures out == SplitEvents(s)
  {
    hide Split, TrimSpace, Parts;
    if s == "" {
      return [];
    }
    var split := Split(s);
    var parts := new string[|split|](i requires 0 <= i < |split| => split[i]);
    var n := 0;
    NoParts();
    for i := 0 to |split|
      invariant 0 <= n <= i
      invariant parts[..n] == Parts(split[..i])
      invariant forall k :: i <= k < |split| ==> parts[k] == split[k]
    {
      PartsSnoc(split, i);
      var p := TrimSpace(parts[i]);
      if p != "" {
        parts[n] := p;
        n := n + 1;
      }
    }
    assert split[..|split|] == split;
    out := parts[..n];
  }

  /** Every accepted setting is the ordered set of its trimmed non-empty parts, all known. */
  lemma AcceptedEvents(raw: string)
    requires EventsOf(raw).Some?
    ensures var events := EventsOf(raw).value;
            && events != [] && Distinct(events) && AllKnown(events) && AllClean(events)
            && forall x :: x in events <==> x in Parts(Split(raw))
  {
    var parts := Parts(Split(raw));
    UniqueIsASet(parts);
    forall i | 0 <= i < |Unique(parts)| ensures Clean(Unique(parts)[i]) {
      assert Unique(parts)[i] in parts;
      KnownIsClean(Unique(parts)[i]);
    }
  }

  /** The parts are exactly the trimmed texts between the commas that are not empty. */
  lemma {:induction false} PartsExactly(raw: seq<string>, part: string)
    ensures part in Parts(raw) <==> part != "" && exists i :: 0 <= i < |raw| && TrimSpace(raw[i]) == part
  {
    hide TrimSpace;
    if raw != [] {
      var last := |raw| - 1;
      PartsExactly(raw[..last], part);
      PartsSnoc(raw, last);
      assert raw[..last + 1] == raw;
      assert forall i :: 0 <= i < last ==> raw[..last][i] == raw[i];
      if part in Parts(raw[..last]) {
        var i :| 0 <= i < last && TrimSpace(raw[..last][i]) == part;
        assert TrimSpace(raw[i]) == part;
      }
    }
  }

  /** A part is its text with white space around it. */
  predicate Pads(raw: string, left: string, s: string, right: string) {
    raw == left + s + right && Blank(left) && Blank(right)
  }

  ghost predicate Padded(raw: string, s: string) {
    exists left, right :: Pads(raw, left, s, right)
  }

  lemma PaddedTrims(raw: string, s: string)
    requires Padded(raw, s) && Trimmed(s)
    ensures TrimSpace(raw) == s
  {
    var left, right :| Pads(raw, left, s, right);
    TrimSpaceStrips(left, s, right);
  }

  lemma {:induction false} PartsOfPadded(raw: seq<string>, texts: seq<string>)
    requires |raw| == |texts| && AllClean(texts)
    requires forall i :: 0 <= i < |raw| ==> Padded(raw[i], texts[i])
    ensures Parts(raw) == texts
  {
    hide TrimSpace, Padded;
    if raw != [] {
      var last := |raw| - 1;
      PartsOfPadded(raw[..last], texts[..last]);
      assert Clean(texts[last]);
      PaddedTrims(raw[last], texts[last]);
      assert texts == texts[..last] + [texts[last]];
    }
  }

  /** White space around the names of a setting changes nothing: it stands for their ordered set. */
  lemma PaddedSetting(raw: seq<string>, names: seq<string>)
    requires |raw| == |names| > 0
    requires forall i :: 0 <= i < |raw| ==> ',' !in raw[i] && Padded(raw[i], names[i])
    requires forall x :: x in names ==> x == "task.reminder.fired" || x == "task.overdue" || x == "tasks.overdue"
    ensures EventsOf(Join(raw)) == Some(Unique(names))
  {
    hide Parts, Split, Join, Padded, Clean;
    forall i | 0 <= i < |names| ensures Clean(names[i]) {
      assert names[i] in names;
      TheKnownEvents(names[i]);
      KnownIsClean(names[i]);
    }
    PartsOfPadded(raw, names);
    SplitJoin(raw);
    assert AllKnown(names) by {
      hide KNOWN;
      forall x | x in names ensures x in KNOWN {
        TheKnownEvents(x);
      }
    }
  }

  /** Joined with commas it parses to itself again, and so it does through the column. */
  lemma EventsRoundTrip(raw: string)
    requires EventsOf(raw).Some?
    ensures var events := EventsOf(raw).value;
            EventsOf(Join(events)) == Some(events) && SplitEvents(Join(events)) == events
  {
    var events := EventsOf(raw).value;
    AcceptedEvents(raw);
    SplitJoin(events);
    PartsOfClean(events);
    UniqueOfDistinct(events);
    assert Clean(events[0]);
  }

  /** The column alone gives back any list of clean strings, known or not. */
  lemma ColumnRoundTrip(events: seq<string>)
    requires AllClean(events)
    ensures SplitEvents(Join(events)) == events
  {
    if events != [] {
      SplitJoin(events);
      PartsOfClean(events);
      assert Clean(events[0]);
    }
  }
}
