/** internal/digest's Build and ParseHHMM. */
module Digest {
  import opened Base
  import opened Text
  import opened Notify
  import opened Vikunja

  const URGENT_PRIORITY := 4

  /** The positions of the urgent tasks. */
  function UrgentAt(tasks: seq<Task>): set<int> {
    set i | 0 <= i < |tasks| && tasks[i].priority >= URGENT_PRIORITY
  }

  function Plural(n: int, one: string, many: string): string {
    if n == 1 then one else many
  }

  function BodyFor(total: int, urgent: int): string {
    "You have " + Decimal(total) + " " + Plural(total, "task", "tasks") + " due in Vikunja today."
    + if urgent > 0 then " " + Decimal(urgent) + " " + Plural(urgent, "is", "are") + " urgent." else ""
  }

  /** The briefing: nothing for an empty list, otherwise one notification with the exact counts. */
  function Briefing(tasks: seq<Task>, dedupeKey: string): seq<Notification> {
    if tasks == [] then []
    else [Notification("Daily briefing", BodyFor(|tasks|, |UrgentAt(tasks)|), "today", Unset, dedupeKey)]
  }

  method Build(tasks: seq<Task>, dedupeKey: string) returns (ns: seq<Notification>)
    ensures ns == Briefing(tasks, dedupeKey)
  {
    var total := |tasks|;
    if total == 0 {
      return [];
    }
    var urgent := 0;
    for i := 0 to |tasks|
      invariant urgent == |UrgentAt(tasks[..i])|
    {
      UrgentStep(tasks, i);
      if tasks[i].priority >= URGENT_PRIORITY {
        urgent := urgent + 1;
      }
    }
    assert tasks[..|tasks|] == tasks;
    var body := "You have " + Decimal(total) + " " + Plural(total, "task", "tasks") + " due in Vikunja today.";
    if urgent > 0 {
      body := body + (" " + Decimal(urgent) + " " + Plural(urgent, "is", "are") + " urgent.");
    }
    assert urgent <= 0 ==> body + "" == body;
    ns := [Notification("Daily briefing", body, "today", Unset, dedupeKey)];
  }

  lemma UrgentStep(tasks: seq<Task>, i: nat)
    requires i < |tasks|
    ensures |UrgentAt(tasks[..i + 1])|
         == |UrgentAt(tasks[..i])| + if tasks[i].priority >= URGENT_PRIORITY then 1 else 0
  {
    var here := if tasks[i].priority >= URGENT_PRIORITY then {i as int} else {};
    assert UrgentAt(tasks[..i + 1]) == UrgentAt(tasks[..i]) + here;
  }

  /** Over a stable task list the briefing counts exactly the fetched prefix: its first 500 tasks at most. */
  lemma BriefingCountsPrefix(list: seq<Task>, requests: nat, out: Option<seq<Task>>, key: string)
    requires Walked(StableServer(list), requests, out) && list != []
    ensures out.Some? && |out.value| == Min(|list|, 500)
    ensures UrgentAt(out.value) == set i | 0 <= i < Min(|list|, 500) && list[i].priority >= 4
    ensures Briefing(out.value, key) ==
            [Notification("Daily briefing", BodyFor(Min(|list|, 500), |UrgentAt(out.value)|), "today", Unset, key)]
  {
    StableList(list, requests, out);
  }

  function DuePart(total: int): string {
    (if total == 1 then "task" else "tasks") + " due in Vikunja today."
  }

  function UrgentPart(urgent: int): string {
    if urgent > 0 then " " + (Decimal(urgent) + [' '] + ((if urgent == 1 then "is" else "are") + " urgent.")) else ""
  }

  lemma Regroup(a: string, b: string, c: string, d: string, e: string, f: string)
    ensures a + b + c + d + e + f == a + (b + c + ((d + e) + f))
  {
  }

  lemma UrgentRegroups(b: string, d: string, e: string)
    ensures " " + b + " " + d + e == " " + (b + [' '] + (d + e))
  {
  }

  /** The body: first the total, and after the fixed text the number of urgent ones, if there are any. */
  lemma BodyInOrder(total: int, urgent: int)
    ensures BodyFor(total, urgent) == "You have " + (Decimal(total) + [' '] + (DuePart(total) + UrgentPart(urgent)))
  {
    hide Decimal, UrgentPart;
    var u := if urgent > 0 then " " + Decimal(urgent) + " " + Plural(urgent, "is", "are") + " urgent." else "";
    Regroup("You have ", Decimal(total), " ", Plural(total, "task", "tasks"), " due in Vikunja today.", u);
    assert u == UrgentPart(urgent) by {
      UrgentText(urgent);
    }
  }

  lemma UrgentText(urgent: int)
    ensures UrgentPart(urgent)
         == if urgent > 0 then " " + Decimal(urgent) + " " + Plural(urgent, "is", "are") + " urgent." else ""
  {
    hide Decimal;
    if urgent > 0 {
      UrgentRegroups(Decimal(urgent), Plural(urgent, "is", "are"), " urgent.");
    }
  }

  /** The body tells both counts: the first number is the total, the second, if there is one, the urgent ones. */
  lemma BodyTellsCounts(total: nat, urgent: nat, total': nat, urgent': nat)
    ensures BodyFor(total, urgent) == BodyFor(total', urgent') <==> total == total' && urgent == urgent'
  {
    hide BodyFor, Decimal, DuePart, UrgentPart;
    BodyInOrder(total, urgent);
    BodyInOrder(total', urgent');
    if BodyFor(total, urgent) == BodyFor(total', urgent') {
      var a, b := DuePart(total) + UrgentPart(urgent), DuePart(total') + UrgentPart(urgent');
      SameTail("You have ", Decimal(total) + [' '] + a, Decimal(total') + [' '] + b);
      DecimalHasNo(total, ' ');
      DecimalHasNo(total', ' ');
      SplitAtFirst(Decimal(total), a, Decimal(total'), b, ' ');
      DecimalInjective(total, total');
      SameTail(DuePart(total), UrgentPart(urgent), UrgentPart(urgent'));
      UrgentPartTells(urgent, urgent');
    }
  }

  lemma SameTail(a: string, b: string, c: string)
    requires a + b == a + c
    ensures b == c
  {
    assert (a + b)[|a|..] == b && (a + c)[|a|..] == c;
  }

  lemma UrgentPartTells(urgent: nat, urgent': nat)
    requires UrgentPart(urgent) == UrgentPart(urgent')
    ensures urgent == urgent'
  {
    hide Decimal;
    if urgent > 0 && urgent' > 0 {
      var a := (if urgent == 1 then "is" else "are") + " urgent.";
      var b := (if urgent' == 1 then "is" else "are") + " urgent.";
      SameTail(" ", Decimal(urgent) + [' '] + a, Decimal(urgent') + [' '] + b);
      DecimalHasNo(urgent, ' ');
      DecimalHasNo(urgent', ' ');
      SplitAtFirst(Decimal(urgent), a, Decimal(urgent'), b, ' ');
      DecimalInjective(urgent, urgent');
    }
  }

  // ---- ParseHHMM ----

  /** One of the two numbers: an integer from 0 to the given maximum. */
  function Field(s: string, max: int): Option<int> {
    match Atoi(s)
    case None => None
    case Some(v) => if v < 0 || v > max then None else Some(v)
  }

  function ParseHHMM(s: string): Option<(int, int)> {
    var colon := IndexOf(s, ':');
    if colon == |s| then None
    else
      var hour := Field(s[..colon], 23);
      var minute := Field(s[colon + 1..], 59);
      if hour.None? || minute.None? then None else Some((hour.value, minute.value))
  }

  lemma ParsedIsInRange(s: string)
    requires ParseHHMM(s).Some?
    ensures 0 <= ParseHHMM(s).value.0 <= 23 && 0 <= ParseHHMM(s).value.1 <= 59
  {
    hide Atoi;
  }

  ghost predicate Reads(s: string, digits: string, v: int) {
    && digits != "" && AllDigits(digits)
    && (s == digits || s == "+" + digits || s == "-" + digits)
    && v == if s == "-" + digits then 0 - NatVal(digits) else NatVal(digits)
  }

  /** An optionally signed decimal numeral, of any length, with value v. */
  ghost predicate Numeral(s: string, v: int) {
    exists digits :: Reads(s, digits, v)
  }

  /** strconv.Atoi accepts exactly the numerals of 64-bit integers. */
  lemma AtoiIsNumeral(s: string, v: int)
    ensures Atoi(s) == Some(v) <==> -9223372036854775808 <= v <= 9223372036854775807 && Numeral(s, v)
  {
    var signed := s != "" && (s[0] == '-' || s[0] == '+');
    var digits := if signed then s[1..] else s;
    if Atoi(s) == Some(v) {
      assert signed ==> s == [s[0]] + digits;
      assert !signed ==> s != "-" + digits;
      assert Reads(s, digits, v);
    }
    if Numeral(s, v) {
      var ds :| Reads(s, ds, v);
      assert IsDigit(ds[0]);
      assert digits == ds;
    }
  }

  lemma FieldIsNumeral(s: string, max: int, v: int)
    requires max <= MAX_INT
    ensures Field(s, max) == Some(v) <==> 0 <= v <= max && Numeral(s, v)
  {
    if 0 <= v <= max {
      AtoiIsNumeral(s, v);
    }
  }

  lemma NumeralHasNoColon(s: string, v: int)
    requires Numeral(s, v)
    ensures ':' !in s
  {
    var ds :| Reads(s, ds, v);
  }

  ghost predicate TimeText(s: string, a: string, b: string, hour: int, minute: int) {
    s == a + ":" + b && Numeral(a, hour) && Numeral(b, minute)
  }

  lemma Cut(s: string, i: nat)
    requires i < |s| && s[i] == ':'
    ensures s == s[..i] + ":" + s[i + 1..]
  {
  }

  lemma FieldsAreNumerals(s: string, hour: int, minute: int)
    requires ParseHHMM(s) == Some((hour, minute))
    ensures var colon := IndexOf(s, ':');
            && colon < |s|
            && 0 <= hour <= 23 && Numeral(s[..colon], hour)
            && 0 <= minute <= 59 && Numeral(s[colon + 1..], minute)
  {
    hide Field, Numeral;
    var colon := IndexOf(s, ':');
    FieldIsNumeral(s[..colon], 23, hour);
    FieldIsNumeral(s[colon + 1..], 59, minute);
  }

  lemma ParseSound(s: string, hour: int, minute: int)
    requires ParseHHMM(s) == Some((hour, minute))
    ensures 0 <= hour <= 23 && 0 <= minute <= 59 && exists a, b :: TimeText(s, a, b, hour, minute)
  {
    var colon := IndexOf(s, ':');
    FieldsAreNumerals(s, hour, minute);
    Cut(s, colon);
    assert TimeText(s, s[..colon], s[colon + 1..], hour, minute);
  }

  lemma {:induction false} ParseComplete(s: string, a: string, b: string, hour: int, minute: int)
    requires 0 <= hour <= 23 && 0 <= minute <= 59 && TimeText(s, a, b, hour, minute)
    ensures ParseHHMM(s) == Some((hour, minute))
  {
    var colon := IndexOf(s, ':');
    NumeralHasNoColon(a, hour);
    assert s[|a|] == ':';
    assert s == s[..colon] + ":" + s[colon + 1..];
    SplitAtFirst(a, b, s[..colon], s[colon + 1..], ':');
    FieldIsNumeral(a, 23, hour);
    FieldIsNumeral(b, 59, minute);
  }

  /** ParseHHMM accepts exactly A:B where A and B are optionally signed decimal numerals of any length
      whose values are an hour and a minute, and returns those values. */
  lemma ParseAccepts(s: string, hour: int, minute: int)
    ensures ParseHHMM(s) == Some((hour, minute)) <==>
            0 <= hour <= 23 && 0 <= minute <= 59 && exists a, b :: TimeText(s, a, b, hour, minute)
  {
    if ParseHHMM(s) == Some((hour, minute)) {
      ParseSound(s, hour, minute);
    }
    if 0 <= hour <= 23 && 0 <= minute <= 59 {
      forall a, b | TimeText(s, a, b, hour, minute) ensures ParseHHMM(s) == Some((hour, minute)) {
        ParseComplete(s, a, b, hour, minute);
      }
    }
  }

  /** Printing a time of day as HH:MM and parsing it gives the same time back. */
  function PrintHHMM(hour: nat, minute: nat): string {
    Padded(hour, 2) + ":" + Padded(minute, 2)
  }

  lemma ParsePrinted(hour: nat, minute: nat)
    requires hour <= 23 && minute <= 59
    ensures ParseHHMM(PrintHHMM(hour, minute)) == Some((hour, minute))
  {
    var a, b := Padded(hour, 2), Padded(minute, 2);
    PaddedValue(hour, 2);
    PaddedValue(minute, 2);
    assert Reads(a, a, hour) && Reads(b, b, minute);
    ParseComplete(PrintHHMM(hour, minute), a, b, hour, minute);
  }

  /** The documented layout is HH:MM; the code also takes signs and any number of digits. */
  lemma ParseTakesMoreThanDocumented()
    ensures ParseHHMM("-0:+007") == Some((0, 7))
  {
    assert AllDigits("0") && AllDigits("007") && AllDigits("00");
    assert "007"[..2] == "00" && "00"[..1] == "0" && "0"[..0] == "";
    assert NatVal("0") == 0 && NatVal("00") == 0 && NatVal("007") == 7;
    assert "-0" == "-" + "0" && "+007" == "+" + "007" && "-0:+007" == "-0" + ":" + "+007";
    assert "+007"[0] != ("-" + "007")[0];
    assert Reads("-0", "0", 0) && Reads("+007", "007", 7);
    ParseComplete("-0:+007", "-0", "+007", 0, 7);
  }
}
