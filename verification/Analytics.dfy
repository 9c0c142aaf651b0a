/**
 Usage events: which are sent, how often, and what a pattern's status remembers of them. The clock
 counts nanoseconds; delivery is what the retry loop reports.
 */
module Analytics {
  import opened Wrappers

  // ---- The bit-field ----

  const IDENTIFY: bv6 := 0
  const START: bv6 := 1
  const END: bv6 := 2
  const REFRESH: bv6 := 3

  function Mask(pos: bv6): bv64 {
    1 << pos
  }

  function SetBit(n: bv64, pos: bv6): bv64 {
    n | Mask(pos)
  }

  /** The masked value is compared with zero as a signed number. */
  predicate HasBit(n: bv64, pos: bv6) {
    Positive(n & Mask(pos))
  }

  predicate Positive(v: bv64) {
    0 < v < 0x8000_0000_0000_0000
  }

  ghost function Bits(n: bv64): iset<bv6> {
    iset pos: bv6 | HasBit(n, pos)
  }

  lemma DifferentBitsAreDisjoint(p: bv6, q: bv6)
    requires p != q
    ensures Mask(p) & Mask(q) == 0
  {
  }

  lemma BitIsPositive(p: bv6)
    requires p != 63
    ensures Positive(Mask(p))
  {
  }

  lemma OrThenAnd(n: bv64, a: bv64, b: bv64)
    ensures a & b == 0 ==> (n | a) & b == n & b
    ensures (n | b) & b == b
  {
  }

  lemma OtherBitsStay(n: bv64, p: bv6, q: bv6)
    requires p != q
    ensures SetBit(n, p) & Mask(q) == n & Mask(q)
  {
    hide Mask;
    DifferentBitsAreDisjoint(p, q);
    OrThenAnd(n, Mask(p), Mask(q));
  }

  lemma OwnBitIsSet(n: bv64, p: bv6)
    ensures SetBit(n, p) & Mask(p) == Mask(p)
  {
    hide Mask;
    OrThenAnd(n, Mask(p), Mask(p));
  }

  /** Setting a bit adds it and touches no other, for every position but the sign's. */
  lemma SetBitThenHasBit(n: bv64, p: bv6, q: bv6)
    requires p != 63
    ensures HasBit(SetBit(n, p), q) <==> HasBit(n, q) || p == q
  {
    hide Mask, Positive, SetBit;
    if p == q {
      OwnBitIsSet(n, p);
      BitIsPositive(p);
    } else {
      OtherBitsStay(n, p, q);
    }
  }

  lemma SetBitGrowsBits(n: bv64, p: bv6)
    requires p != 63
    ensures Bits(SetBit(n, p)) == Bits(n) + iset{p}
  {
    hide HasBit, SetBit;
    forall q ensures q in Bits(SetBit(n, p)) <==> q in Bits(n) || q == p {
      SetBitThenHasBit(n, p, q);
    }
  }

  // ---- Delivery ----

  type Time = int

  function Power(n: nat): nat {
    if n == 0 then 1 else 2 * Power(n - 1)
  }

  /** How many of the first attempts fail before one is accepted. */
  function Failures(accepts: nat -> bool, from: nat, attempts: nat): (n: nat)
    requires from <= attempts
    ensures n <= attempts - from
    ensures forall i :: from <= i < from + n ==> !accepts(i)
    ensures from + n < attempts ==> accepts(from + n)
    decreases attempts - from
  {
    if from == attempts || accepts(from) then 0 else 1 + Failures(accepts, from + 1, attempts)
  }

  /** Tries again after a sleep that doubles; also sleeps after the last failure. No attempt is no error. */
  method RetryAnalytics(attempts: int, sleep: nat, accepts: nat -> bool) returns (ok: bool, tries: nat, slept: nat)
    ensures ok <==> attempts <= 0 || exists i: nat :: i < attempts && accepts(i)
    ensures attempts > 0 ==> var n := Failures(accepts, 0, attempts);
      tries == (if ok then n + 1 else attempts) && slept == sleep * (Power(n) - 1)
    ensures attempts <= 0 ==> tries == 0 && slept == 0
  {
    ok, tries, slept := true, 0, 0;
    var pause := sleep;
    while tries < attempts
      invariant attempts <= 0 ==> tries == 0
      invariant attempts > 0 ==>
          tries <= attempts && tries + Failures(accepts, tries, attempts) == Failures(accepts, 0, attempts)
      invariant ok <==> tries == 0
      invariant forall i :: 0 <= i < tries ==> !accepts(i)
      invariant pause == sleep * Power(tries) && slept == sleep * (Power(tries) - 1)
      decreases attempts - tries
    {
      ok := accepts(tries);
      tries := tries + 1;
      if ok {
        return;
      }
      slept := slept + pause;
      pause := pause * 2;
    }
  }

  // ---- The three senders ----

  const INTERVAL: Time := 240 * 60 * 1_000_000_000
  const ATTEMPTS := 2

  datatype Event = Identified | Started | Completed | Refreshed

  datatype Client = Client(apiKey: string, lastEndEvent: Time, sentInstallInfo: bool, sentStartEvent: bool)

  datatype Call = InstallationInfo | StartEvent | EndEvent

  predicate HasIntervalPassed(lastUpdate: Time, now: Time) {
    now - lastUpdate >= INTERVAL
  }

  /** What one call would send for a pattern with these bits. */
  function Due(c: Client, bits: bv64, call: Call, checked: Time): Option<Event> {
    if c.apiKey == "" then None
    else match call
      case InstallationInfo => if c.sentInstallInfo || HasBit(bits, IDENTIFY) then None else Some(Identified)
      case StartEvent => if c.sentStartEvent || HasBit(bits, START) then None else Some(Started)
      case EndEvent =>
        if !HasIntervalPassed(c.lastEndEvent, checked) then None
        else Some(if HasBit(bits, END) then Refreshed else Completed)
  }

  function Noted(c: Client, event: Event, finished: Time): Client {
    match event
    case Identified => c.(sentInstallInfo := true)
    case Started => c.(sentStartEvent := true)
    case Completed => c.(lastEndEvent := finished)
    case Refreshed => c.(lastEndEvent := finished)
  }

  function Marked(bits: bv64, event: Event): bv64 {
    match event
    case Identified => SetBit(bits, IDENTIFY)
    case Started => SetBit(bits, START)
    case Completed => SetBit(bits, END)
    case Refreshed => SetBit(SetBit(bits, END), REFRESH)
  }

  class PatternObject {
    var analyticsSent: bv64

    constructor (bits: bv64)
      ensures analyticsSent == bits
    {
      analyticsSent := bits;
    }
  }

  class VpAnalytics {
    const apiKey: string
    var lastEndEvent: Time
    var sentInstallInfo: bool
    var sentStartEvent: bool

    constructor (apiKey: string, epoch: Time)
      ensures View() == Client(apiKey, epoch, false, false)
    {
      this.apiKey := apiKey;
      lastEndEvent := epoch;
      sentInstallInfo, sentStartEvent := false, false;
    }

    function View(): Client
      reads this
    {
      Client(apiKey, lastEndEvent, sentInstallInfo, sentStartEvent)
    }

    /** The call sent what was due, if anything was due and an attempt was accepted. */
    twostate predicate Did(p: PatternObject, call: Call, checked: Time, finished: Time, accepts: nat -> bool,
        changed: bool)
      reads this, p
    {
      var due := Due(old(View()), old(p.analyticsSent), call, checked);
      && (changed <==> due.Some? && (accepts(0) || accepts(1)))
      && View() == (if changed then Noted(old(View()), due.value, finished) else old(View()))
      && p.analyticsSent == (if changed then Marked(old(p.analyticsSent), due.value) else old(p.analyticsSent))
    }

    method SendPatternInstallationInfo(p: PatternObject, checked: Time, finished: Time, accepts: nat -> bool)
      returns (changed: bool)
      modifies this, p
      ensures Did(p, InstallationInfo, checked, finished, accepts, changed)
      ensures changed <==> && apiKey != "" && !old(sentInstallInfo) && !HasBit(old(p.analyticsSent), 0)
                           && (accepts(0) || accepts(1))
      ensures changed ==> sentInstallInfo && HasBit(p.analyticsSent, 0)
    {
      hide HasBit, SetBit;
      SetBitThenHasBit(p.analyticsSent, IDENTIFY, IDENTIFY);
      if apiKey == "" || sentInstallInfo || HasBit(p.analyticsSent, IDENTIFY) {
        return false;
      }
      var ok, tries, slept := RetryAnalytics(ATTEMPTS, 1, accepts);
      if !ok {
        return false;
      }
      p.analyticsSent := SetBit(p.analyticsSent, IDENTIFY);
      sentInstallInfo := true;
      return true;
    }

    method SendPatternStartEventInfo(p: PatternObject, checked: Time, finished: Time, accepts: nat -> bool)
      returns (changed: bool)
      modifies this, p
      ensures Did(p, StartEvent, checked, finished, accepts, changed)
      ensures changed <==> && apiKey != "" && !old(sentStartEvent) && !HasBit(old(p.analyticsSent), 1)
                           && (accepts(0) || accepts(1))
      ensures changed ==> sentStartEvent && HasBit(p.analyticsSent, 1)
    {
      hide HasBit, SetBit;
      SetBitThenHasBit(p.analyticsSent, START, START);
      if apiKey == "" || sentStartEvent || HasBit(p.analyticsSent, START) {
        return false;
      }
      var ok, tries, slept := RetryAnalytics(ATTEMPTS, 1, accepts);
      if !ok {
        return false;
      }
      p.analyticsSent := SetBit(p.analyticsSent, START);
      sentStartEvent := true;
      return true;
    }

    method SendPatternEndEventInfo(p: PatternObject, checked: Time, finished: Time, accepts: nat -> bool)
      returns (changed: bool)
      modifies this, p
      ensures Did(p, EndEvent, checked, finished, accepts, changed)
      ensures changed <==> && apiKey != "" && checked - old(lastEndEvent) >= 240 * 60 * 1_000_000_000
                           && (accepts(0) || accepts(1))
      ensures changed ==> lastEndEvent == finished && HasBit(p.analyticsSent, 2)
      ensures changed && HasBit(old(p.analyticsSent), 2) ==> HasBit(p.analyticsSent, 3)
    {
      hide HasBit, SetBit;
      SetBitThenHasBit(p.analyticsSent, END, END);
      SetBitThenHasBit(SetBit(p.analyticsSent, END), REFRESH, END);
      SetBitThenHasBit(SetBit(p.analyticsSent, END), REFRESH, REFRESH);
      if apiKey == "" || !HasIntervalPassed(lastEndEvent, checked) {
        return false;
      }
      var event := if HasBit(p.analyticsSent, END) then Refreshed else Completed;
      var ok, tries, slept := RetryAnalytics(ATTEMPTS, 1, accepts);
      if !ok {
        return false;
      }
      lastEndEvent := finished;
      p.analyticsSent := SetBit(p.analyticsSent, END);
      if event == Refreshed {
        p.analyticsSent := SetBit(p.analyticsSent, REFRESH);
      }
      return true;
    }
  }

  // ---- Runs of one client, over whatever patterns it is handed ----

  datatype Sent = Sent(event: Event, at: Time)

  /** One call: the bits of the pattern it is given, its two readings of the clock, and whether delivery works. */
  datatype Step = Step(bits: bv64, call: Call, checked: Time, finished: Time, delivered: bool)

  datatype Log = Log(client: Client, sent: seq<Sent>)

  function Take(l: Log, s: Step): Log {
    var due := Due(l.client, s.bits, s.call, s.checked);
    if due.Some? && s.delivered then Log(Noted(l.client, due.value, s.finished), l.sent + [Sent(due.value, s.finished)])
    else l
  }

  function Run(c: Client, steps: seq<Step>): Log {
    if steps == [] then Log(c, []) else Take(Run(c, steps[..|steps| - 1]), steps[|steps| - 1])
  }

  predicate Ending(e: Event) {
    e.Completed? || e.Refreshed?
  }

  ghost predicate AtMostOnce(sent: seq<Sent>, e: Event) {
    forall i, j :: 0 <= i < j < |sent| ==> !(sent[i].event == e && sent[j].event == e)
  }

  ghost predicate Spaced(sent: seq<Sent>) {
    forall i, j :: 0 <= i < j < |sent| && Ending(sent[i].event) && Ending(sent[j].event) ==>
      sent[j].at - sent[i].at >= INTERVAL
  }

  ghost predicate Remembers(l: Log) {
    && (forall s :: s in l.sent && s.event == Identified ==> l.client.sentInstallInfo)
    && (forall s :: s in l.sent && s.event == Started ==> l.client.sentStartEvent)
    && (forall s :: s in l.sent && Ending(s.event) ==> s.at <= l.client.lastEndEvent)
  }

  ghost predicate Thrifty(l: Log) {
    AtMostOnce(l.sent, Identified) && AtMostOnce(l.sent, Started) && Spaced(l.sent) && Remembers(l)
  }

  lemma TakeIsThrifty(l: Log, s: Step)
    requires Thrifty(l) && s.checked <= s.finished
    ensures Thrifty(Take(l, s))
  {
    hide HasBit;
    var after := Take(l, s);
    assert forall i :: 0 <= i < |l.sent| ==> after.sent[i] == l.sent[i] && l.sent[i] in l.sent;
  }

  /**
   Whatever patterns a client is handed, and whatever their bits, it identifies and starts at most
   once, and its completed and refreshed events are an interval apart, if the clock does not run
   back within a call.
   */
  lemma {:induction false} ClientIsThrifty(c: Client, steps: seq<Step>)
    requires forall s :: s in steps ==> s.checked <= s.finished
    ensures AtMostOnce(Run(c, steps).sent, Identified) && AtMostOnce(Run(c, steps).sent, Started)
    ensures Spaced(Run(c, steps).sent)
    ensures Remembers(Run(c, steps))
  {
    hide Take;
    if steps != [] {
      ClientIsThrifty(c, steps[..|steps| - 1]);
      assert steps[|steps| - 1] in steps;
      TakeIsThrifty(Run(c, steps[..|steps| - 1]), steps[|steps| - 1]);
    }
  }

  // ---- Runs over one pattern that keeps its bits, whatever clients serve it ----

  datatype Visit = Visit(client: Client, call: Call, checked: Time, finished: Time, delivered: bool)

  datatype Trace = Trace(bits: bv64, events: seq<Event>)

  function Serve(t: Trace, v: Visit): Trace {
    var due := Due(v.client, t.bits, v.call, v.checked);
    if due.Some? && v.delivered then Trace(Marked(t.bits, due.value), t.events + [due.value]) else t
  }

  function Visits(bits: bv64, visits: seq<Visit>): Trace {
    if visits == [] then Trace(bits, []) else Serve(Visits(bits, visits[..|visits| - 1]), visits[|visits| - 1])
  }

  function BitOf(e: Event): bv6 {
    match e
    case Identified => IDENTIFY
    case Started => START
    case Completed => END
    case Refreshed => REFRESH
  }

  lemma MarkedBits(bits: bv64, e: Event)
    ensures Bits(Marked(bits, e)) == Bits(bits) + iset{BitOf(e)} + (if Ending(e) then iset{END} else iset{})
  {
    hide HasBit, SetBit, Bits;
    SetBitGrowsBits(bits, BitOf(e));
    SetBitGrowsBits(bits, END);
    SetBitGrowsBits(SetBit(bits, END), REFRESH);
  }

  lemma MarkedBit(bits: bv64, e: Event, x: Event)
    ensures BitOf(x) in Bits(Marked(bits, e)) <==> BitOf(x) in Bits(bits) || x == e || (Ending(e) && x == Completed)
  {
    hide HasBit, SetBit, Bits, Marked;
    MarkedBits(bits, e);
  }

  lemma MarkedBitsBound(bits: bv64, e: Event, pos: bv6)
    requires pos in Bits(Marked(bits, e))
    ensures pos in Bits(bits) || pos <= REFRESH
  {
    hide HasBit, SetBit, Bits, Marked;
    MarkedBits(bits, e);
  }

  /** Everything but a refresh happens once at most, and a refresh follows the completion. */
  ghost predicate Orderly(events: seq<Event>) {
    && (forall i, j :: 0 <= i < j < |events| && events[i] == events[j] ==> events[i] == Refreshed)
    && (forall j :: 0 <= j < |events| && events[j] == Refreshed ==> Completed in events[..j])
  }

  /** The bits are those of the events, and no others. */
  ghost predicate Tells(t: Trace) {
    && (forall e :: e in t.events <==> BitOf(e) in Bits(t.bits))
    && (forall pos :: pos in Bits(t.bits) ==> pos <= REFRESH)
    && Orderly(t.events)
  }

  lemma DueIsNew(t: Trace, v: Visit)
    requires Tells(t) && Due(v.client, t.bits, v.call, v.checked).Some?
    ensures var e := Due(v.client, t.bits, v.call, v.checked).value;
      if e == Refreshed then Completed in t.events else e !in t.events
  {
    hide HasBit;
    assert Completed in t.events <==> BitOf(Completed) in Bits(t.bits);
    assert Identified in t.events <==> BitOf(Identified) in Bits(t.bits);
    assert Started in t.events <==> BitOf(Started) in Bits(t.bits);
  }

  lemma NewEventIsOrderly(events: seq<Event>, e: Event)
    requires Orderly(events)
    requires if e == Refreshed then Completed in events else e !in events
    ensures Orderly(events + [e])
  {
    var after := events + [e];
    forall j | 0 <= j < |after| && after[j] == Refreshed ensures Completed in after[..j] {
      assert after[..j] == events[..j];
    }
  }

  lemma ServeTells(t: Trace, v: Visit)
    requires Tells(t)
    ensures Tells(Serve(t, v))
  {
    hide HasBit, SetBit, Bits, Marked, Due, Orderly, BitOf;
    var due := Due(v.client, t.bits, v.call, v.checked);
    if due.Some? && v.delivered {
      var e := due.value;
      DueIsNew(t, v);
      NewEventIsOrderly(t.events, e);
      var after := Serve(t, v);
      forall x ensures x in after.events <==> BitOf(x) in Bits(after.bits) {
        MarkedBit(t.bits, e, x);
        assert x in after.events <==> x in t.events || x == e;
      }
      forall pos | pos in Bits(after.bits) ensures pos <= REFRESH {
        MarkedBitsBound(t.bits, e, pos);
      }
    }
  }

  /**
   A fresh pattern's bits are exactly the events sent for it, so across restarts it is identified,
   started and completed at most once, and refreshed only after it was completed.
   */
  lemma {:induction false} BitsAreEventsSent(visits: seq<Visit>)
    ensures Tells(Visits(0, visits))
  {
    hide HasBit, Serve;
    if visits == [] {
      ZeroHasNoBit();
    } else {
      BitsAreEventsSent(visits[..|visits| - 1]);
      ServeTells(Visits(0, visits[..|visits| - 1]), visits[|visits| - 1]);
    }
  }

  lemma ZeroHasNoBit()
    ensures Bits(0) == iset{}
  {
    assert forall pos: bv6 :: 0 as bv64 & Mask(pos) == 0;
  }

  /** Bits only grow, whatever they were, and a refresh bit keeps coming with an end bit. */
  lemma {:induction false} BitsOnlyGrow(bits: bv64, visits: seq<Visit>)
    ensures var now := Bits(Visits(bits, visits).bits);
      && Bits(bits) <= now
      && ((REFRESH in Bits(bits) ==> END in Bits(bits)) ==> REFRESH in now ==> END in now)
  {
    hide HasBit, SetBit, Bits, Marked, Due;
    if visits != [] {
      var before, v := Visits(bits, visits[..|visits| - 1]), visits[|visits| - 1];
      BitsOnlyGrow(bits, visits[..|visits| - 1]);
      var due := Due(v.client, before.bits, v.call, v.checked);
      if due.Some? && v.delivered {
        MarkedBits(before.bits, due.value);
      }
    }
  }

  // ---- What has to be sent ----

  /** A visit at which a report of completion is due and gets through. */
  predicate Reports(v: Visit) {
    && v.call.EndEvent? && v.client.apiKey != ""
    && v.checked - v.client.lastEndEvent >= 240 * 60 * 1_000_000_000
    && v.delivered
  }

  /** A visit that would introduce the pattern, or its start, by a client that has not done so before. */
  predicate Introduces(v: Visit, call: Call) {
    && v.call == call && v.client.apiKey != "" && v.delivered
    && (call.InstallationInfo? ==> !v.client.sentInstallInfo)
    && (call.StartEvent? ==> !v.client.sentStartEvent)
  }

  function ReportsIn(visits: seq<Visit>): nat {
    if visits == [] then 0 else ReportsIn(visits[..|visits| - 1]) + if Reports(visits[|visits| - 1]) then 1 else 0
  }

  function Endings(events: seq<Event>): nat {
    if events == [] then 0 else Endings(events[..|events| - 1]) + if Ending(events[|events| - 1]) then 1 else 0
  }

  lemma EndingsOfAppend(events: seq<Event>, e: Event)
    ensures Endings(events + [e]) == Endings(events) + if Ending(e) then 1 else 0
  {
    assert (events + [e])[..|events|] == events;
  }

  lemma {:induction false} SomeEnding(events: seq<Event>)
    requires Orderly(events)
    ensures Endings(events) > 0 <==> Completed in events
  {
    if events != [] {
      var init, last := events[..|events| - 1], events[|events| - 1];
      assert events == init + [last];
      assert Orderly(init) by {
        forall j | 0 <= j < |init| && init[j] == Refreshed ensures Completed in init[..j] {
          assert events[..j] == init[..j];
        }
      }
      SomeEnding(init);
      if last == Refreshed {
        assert events[..|events| - 1] == init;
      }
    }
  }

  ghost predicate Introduced(visits: seq<Visit>, call: Call) {
    exists i :: 0 <= i < |visits| && Introduces(visits[i], call)
  }

  lemma IntroducedByOneMore(visits: seq<Visit>, v: Visit, call: Call)
    ensures Introduced(visits + [v], call) <==> Introduced(visits, call) || Introduces(v, call)
  {
    var all := visits + [v];
    assert all[|visits|] == v;
    if Introduced(visits, call) {
      var i :| 0 <= i < |visits| && Introduces(visits[i], call);
      assert all[i] == visits[i];
    }
  }

  /**
   Nothing that is due is left unsent. A pattern has one report for every visit at which one was due and
   got through, the first of them its completion and every later one a refresh; and it is identified
   and started if any visit asked for that.
   */
  lemma {:induction false} WhatIsDueIsSent(visits: seq<Visit>)
    ensures var events := Visits(0, visits).events;
            && Endings(events) == ReportsIn(visits)
            && (Completed in events <==> ReportsIn(visits) > 0)
            && (Identified in events <==> Introduced(visits, InstallationInfo))
            && (Started in events <==> Introduced(visits, StartEvent))
  {
    hide HasBit, Marked, Bits, Orderly, Introduced;
    BitsAreEventsSent(visits);
    SomeEnding(Visits(0, visits).events);
    if visits != [] {
      var init, v := visits[..|visits| - 1], visits[|visits| - 1];
      assert visits == init + [v];
      WhatIsDueIsSent(init);
      BitsAreEventsSent(init);
      IntroducedByOneMore(init, v, InstallationInfo);
      IntroducedByOneMore(init, v, StartEvent);
      DueAsks(Visits(0, init), v);
      var due := Due(v.client, Visits(0, init).bits, v.call, v.checked);
      if due.Some? {
        EndingsOfAppend(Visits(0, init).events, due.value);
      }
    } else {
      NothingIntroduced();
    }
  }

  lemma NothingIntroduced()
    ensures forall call :: !Introduced([], call)
  {
  }

  /** What a visit sends, from what was sent before. */
  lemma DueAsks(t: Trace, v: Visit)
    requires Tells(t)
    ensures var due := Due(v.client, t.bits, v.call, v.checked);
            && (due.Some? && Ending(due.value) && v.delivered <==> Reports(v))
            && (due == Some(Identified) && v.delivered <==> Introduces(v, InstallationInfo) && Identified !in t.events)
            && (due == Some(Started) && v.delivered <==> Introduces(v, StartEvent) && Started !in t.events)
  {
    hide HasBit, Orderly;
    assert Identified in t.events <==> BitOf(Identified) in Bits(t.bits);
    assert Started in t.events <==> BitOf(Started) in Bits(t.bits);
  }
}
