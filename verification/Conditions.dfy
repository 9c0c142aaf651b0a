/**
 The conditions in a pattern's status: setting and removing them in place, and what a history of
 sets and removes leaves behind.
 */
module Conditions {

  type Time = int

  datatype Condition = Condition(
    kind: string,
    status: string,
    lastUpdateTime: Time,
    lastTransitionTime: Time,
    message: string)

  predicate First(conditions: seq<Condition>, kind: string, idx: int) {
    && -1 <= idx < |conditions|
    && (idx == -1 ==> forall i :: 0 <= i < |conditions| ==> conditions[i].kind != kind)
    && (idx >= 0 ==> conditions[idx].kind == kind && forall i :: 0 <= i < idx ==> conditions[i].kind != kind)
  }

  function IndexOf(conditions: seq<Condition>, kind: string): (idx: int)
    ensures First(conditions, kind, idx)
  {
    if conditions == [] then -1
    else if conditions[0].kind == kind then 0
    else
      var rest := IndexOf(conditions[1..], kind);
      if rest == -1 then -1 else rest + 1
  }

  function SetIn(conditions: seq<Condition>, kind: string, status: string, message: string, now: Time): seq<Condition> {
    var idx := IndexOf(conditions, kind);
    if idx == -1 then conditions + [Condition(kind, status, now, now, message)]
    else
      var since := if conditions[idx].status == status then conditions[idx].lastTransitionTime else now;
      conditions[idx := Condition(kind, status, now, since, message)]
  }

  function RemoveFrom(conditions: seq<Condition>, kind: string): seq<Condition> {
    var idx := IndexOf(conditions, kind);
    if idx == -1 then conditions else conditions[..idx] + conditions[idx + 1..]
  }

  class PatternStatus {
    var conditions: seq<Condition>

    constructor ()
      ensures conditions == []
    {
      conditions := [];
    }

    method GetPatternConditionByType(kind: string) returns (idx: int)
      ensures First(conditions, kind, idx)
      ensures idx == IndexOf(conditions, kind)
    {
      for i := 0 to |conditions|
        invariant forall k :: 0 <= k < i ==> conditions[k].kind != kind
      {
        if conditions[i].kind == kind {
          return i;
        }
      }
      return -1;
    }

    method SetPatternCondition(kind: string, status: string, message: string, now: Time)
      modifies this
      ensures conditions == SetIn(old(conditions), kind, status, message, now)
    {
      var idx := GetPatternConditionByType(kind);
      var newCondition := Condition(kind, status, now, 0, message);
      if idx == -1 || conditions[idx].status != status {
        newCondition := newCondition.(lastTransitionTime := now);
      } else {
        newCondition := newCondition.(lastTransitionTime := conditions[idx].lastTransitionTime);
      }
      if idx == -1 {
        conditions := conditions + [newCondition];
      } else {
        conditions := conditions[idx := newCondition];
      }
    }

    method RemovePatternCondition(kind: string)
      modifies this
      ensures conditions == RemoveFrom(old(conditions), kind)
    {
      var idx := GetPatternConditionByType(kind);
      if idx != -1 {
        conditions := conditions[..idx] + conditions[idx + 1..];
      }
    }
  }

  // ---- Histories ----

  datatype Step = Set(kind: string, status: string, message: string, now: Time) | Remove(kind: string)

  function After(h: seq<Step>): seq<Condition> {
    if h == [] then []
    else
      var before := After(h[..|h| - 1]);
      match h[|h| - 1]
      case Set(kind, status, message, now) => SetIn(before, kind, status, message, now)
      case Remove(kind) => RemoveFrom(before, kind)
  }

  /** The last step about the kind, or -1. */
  function Last(h: seq<Step>, kind: string): (i: int)
    ensures -1 <= i < |h|
    ensures i >= 0 ==> h[i].kind == kind && forall j :: i < j < |h| ==> h[j].kind != kind
    ensures i == -1 ==> forall j :: 0 <= j < |h| ==> h[j].kind != kind
  {
    if h == [] then -1
    else if h[|h| - 1].kind == kind then |h| - 1
    else Last(h[..|h| - 1], kind)
  }

  predicate Present(h: seq<Step>, kind: string) {
    Last(h, kind) >= 0 && h[Last(h, kind)].Set?
  }

  /** The i-th step finds no condition of its kind and makes one. */
  predicate Creates(h: seq<Step>, i: nat)
    requires i < |h|
  {
    h[i].Set? && !Present(h[..i], h[i].kind)
  }

  /** The i-th step makes its condition or gives it another status. */
  predicate Turns(h: seq<Step>, i: nat)
    requires i < |h|
  {
    h[i].Set? && (Creates(h, i) || h[Last(h[..i], h[i].kind)].status != h[i].status)
  }

  function LastCreation(h: seq<Step>, kind: string, n: nat): (i: int)
    requires n <= |h|
    ensures -1 <= i < n
  {
    if n == 0 then -1
    else if h[n - 1].kind == kind && Creates(h, n - 1) then n - 1
    else LastCreation(h, kind, n - 1)
  }

  function LastTurn(h: seq<Step>, kind: string, n: nat): (i: int)
    requires n <= |h|
    ensures -1 <= i < n
    ensures i >= 0 ==> h[i].kind == kind && h[i].Set?
  {
    if n == 0 then -1
    else if h[n - 1].kind == kind && Turns(h, n - 1) then n - 1
    else LastTurn(h, kind, n - 1)
  }

  lemma {:induction false} OlderStepsCount(h: seq<Step>, kind: string, n: nat)
    requires n < |h|
    ensures LastCreation(h, kind, n) == LastCreation(h[..|h| - 1], kind, n)
    ensures LastTurn(h, kind, n) == LastTurn(h[..|h| - 1], kind, n)
  {
    if n > 0 {
      OlderStepsCount(h, kind, n - 1);
      assert h[..|h| - 1][..n - 1] == h[..n - 1];
    }
  }

  /** The condition of a kind whose last step is a set. */
  function Expected(h: seq<Step>, kind: string): Condition
    requires Present(h, kind) && LastTurn(h, kind, |h|) >= 0
  {
    var last := h[Last(h, kind)];
    Condition(kind, last.status, last.now, h[LastTurn(h, kind, |h|)].now, last.message)
  }

  ghost predicate Records(h: seq<Step>, c: Condition) {
    && Present(h, c.kind)
    && LastCreation(h, c.kind, |h|) >= 0
    && LastTurn(h, c.kind, |h|) >= 0
    && c == Expected(h, c.kind)
  }

  ghost predicate InOrder(h: seq<Step>, conditions: seq<Condition>) {
    forall i, j :: 0 <= i < j < |conditions| ==>
      LastCreation(h, conditions[i].kind, |h|) < LastCreation(h, conditions[j].kind, |h|)
  }

  /** A step leaves the record of every other kind alone. */
  lemma OtherKindsStay(h: seq<Step>, kind: string)
    requires h != [] && h[|h| - 1].kind != kind
    ensures var before := h[..|h| - 1];
      && Present(h, kind) == Present(before, kind)
      && LastCreation(h, kind, |h|) == LastCreation(before, kind, |before|)
      && forall c: Condition :: c.kind == kind && Records(before, c) ==> Records(h, c)
  {
    OlderStepsCount(h, kind, |h| - 1);
  }

  lemma NewKindRecorded(h: seq<Step>, before: seq<Condition>)
    requires h != [] && Creates(h, |h| - 1)
    ensures var s := h[|h| - 1]; Records(h, Condition(s.kind, s.status, s.now, s.now, s.message))
    ensures LastCreation(h, h[|h| - 1].kind, |h|) == |h| - 1
  {
  }

  lemma KnownKindRecorded(h: seq<Step>, c: Condition)
    requires h != [] && h[|h| - 1].Set? && c.kind == h[|h| - 1].kind && Records(h[..|h| - 1], c)
    ensures var s := h[|h| - 1];
      var since := if c.status == s.status then c.lastTransitionTime else s.now;
      Records(h, Condition(s.kind, s.status, s.now, since, s.message))
    ensures LastCreation(h, c.kind, |h|) == LastCreation(h[..|h| - 1], c.kind, |h| - 1)
  {
    OlderStepsCount(h, c.kind, |h| - 1);
  }

  /** The list holds exactly the records, oldest creation first. */
  ghost predicate Faithful(h: seq<Step>, conditions: seq<Condition>) {
    && (forall kind :: Present(h, kind) <==> IndexOf(conditions, kind) >= 0)
    && (forall i :: 0 <= i < |conditions| ==> Records(h, conditions[i]))
    && InOrder(h, conditions)
  }

  /**
   After any history the list holds one condition for each kind whose last step is a set, oldest
   creation first, with that step's status, message and time, and the time of the last step that
   created it or changed its status.
   */
  lemma {:induction false} HistoryIsRecorded(h: seq<Step>)
    ensures Faithful(h, After(h))
  {
    if h != [] {
      var before := h[..|h| - 1];
      HistoryIsRecorded(before);
      if h[|h| - 1].Remove? {
        RemoveIsRecorded(h, After(before));
      } else if Present(before, h[|h| - 1].kind) {
        UpdateIsRecorded(h, After(before));
      } else {
        AdditionIsRecorded(h, After(before));
      }
    }
  }

  lemma KindsAreDistinct(h: seq<Step>, conditions: seq<Condition>, i: nat, j: nat)
    requires InOrder(h, conditions) && i < |conditions| && j < |conditions| && i != j
    ensures conditions[i].kind != conditions[j].kind
  {
  }

  /** Every condition of another kind is still recorded, and the order among them is unchanged. */
  lemma OthersStayRecorded(h: seq<Step>, was: seq<Condition>)
    requires h != [] && Faithful(h[..|h| - 1], was)
    ensures forall i :: 0 <= i < |was| && was[i].kind != h[|h| - 1].kind ==>
      Records(h, was[i]) && LastCreation(h, was[i].kind, |h|) == LastCreation(h[..|h| - 1], was[i].kind, |h| - 1)
    ensures forall other :: other != h[|h| - 1].kind ==> (Present(h, other) <==> IndexOf(was, other) >= 0)
  {
    hide Records, LastCreation;
    forall other | other != h[|h| - 1].kind
      ensures Present(h, other) <==> IndexOf(was, other) >= 0
    {
      OtherKindsStay(h, other);
    }
    forall i | 0 <= i < |was| && was[i].kind != h[|h| - 1].kind
      ensures Records(h, was[i])
          && LastCreation(h, was[i].kind, |h|) == LastCreation(h[..|h| - 1], was[i].kind, |h| - 1)
    {
      OtherKindsStay(h, was[i].kind);
    }
  }

  lemma RemoveIsRecorded(h: seq<Step>, was: seq<Condition>)
    requires h != [] && h[|h| - 1].Remove? && Faithful(h[..|h| - 1], was)
    ensures Faithful(h, RemoveFrom(was, h[|h| - 1].kind))
  {
    hide LastCreation, Records, IndexOf;
    var kind := h[|h| - 1].kind;
    var idx := IndexOf(was, kind);
    OthersStayRecorded(h, was);
    assert !Present(h, kind);
    hide Present;
    if idx >= 0 {
      var now := RemoveFrom(was, kind);
      forall i | 0 <= i < |was| && i != idx ensures was[i].kind != kind {
        KindsAreDistinct(h[..|h| - 1], was, i, idx);
      }
      forall other | other != kind ensures IndexOf(now, other) >= 0 <==> IndexOf(was, other) >= 0 {
        var k := IndexOf(was, other);
        if k >= 0 {
          assert was[k] == now[if k < idx then k else k - 1];
        }
      }
      assert forall i :: 0 <= i < |now| ==> now[i] == was[if i < idx then i else i + 1];
    }
  }

  lemma UpdateIsRecorded(h: seq<Step>, was: seq<Condition>)
    requires h != [] && h[|h| - 1].Set? && Present(h[..|h| - 1], h[|h| - 1].kind) && Faithful(h[..|h| - 1], was)
    ensures var s := h[|h| - 1]; Faithful(h, SetIn(was, s.kind, s.status, s.message, s.now))
  {
    hide LastCreation, Records;
    var s := h[|h| - 1];
    var idx := IndexOf(was, s.kind);
    OthersStayRecorded(h, was);
    KnownKindRecorded(h, was[idx]);
    var now := SetIn(was, s.kind, s.status, s.message, s.now);
    forall i | 0 <= i < |was| && i != idx ensures was[i].kind != s.kind {
      KindsAreDistinct(h[..|h| - 1], was, i, idx);
    }
    assert forall i :: 0 <= i < |was| ==> now[i].kind == was[i].kind;
    forall other ensures IndexOf(now, other) == IndexOf(was, other) {
    }
    assert Present(h, s.kind);
  }

  lemma AdditionIsRecorded(h: seq<Step>, was: seq<Condition>)
    requires h != [] && Creates(h, |h| - 1) && Faithful(h[..|h| - 1], was)
    ensures var s := h[|h| - 1]; Faithful(h, SetIn(was, s.kind, s.status, s.message, s.now))
  {
    hide LastCreation, Records;
    var s := h[|h| - 1];
    OthersStayRecorded(h, was);
    NewKindRecorded(h, was);
    var now := SetIn(was, s.kind, s.status, s.message, s.now);
    assert now == was + [Condition(s.kind, s.status, s.now, s.now, s.message)];
    forall other | other != s.kind ensures IndexOf(now, other) >= 0 <==> IndexOf(was, other) >= 0 {
      var k := IndexOf(was, other);
      if k >= 0 {
        assert now[k] == was[k];
      }
    }
    assert now[|was|].kind == s.kind;
    assert Present(h, s.kind);
  }

  ghost predicate ClockMoves(h: seq<Step>) {
    forall i, j :: 0 <= i < j < |h| && h[i].Set? && h[j].Set? ==> h[i].now <= h[j].now
  }

  lemma RecordedTimesAreOrdered(h: seq<Step>, c: Condition)
    requires ClockMoves(h) && Records(h, c)
    ensures c.lastTransitionTime <= c.lastUpdateTime
  {
    hide LastTurn, Last, LastCreation;
    assert LastTurn(h, c.kind, |h|) <= Last(h, c.kind);
  }

  /** When the clock never runs back, no condition changed status after its last update. */
  lemma TransitionNotAfterUpdate(h: seq<Step>)
    requires ClockMoves(h)
    ensures forall c :: c in After(h) ==> c.lastTransitionTime <= c.lastUpdateTime
    ensures forall i, j :: 0 <= i < j < |After(h)| ==> After(h)[i].kind != After(h)[j].kind
  {
    hide After, Records, LastCreation;
    HistoryIsRecorded(h);
    forall c | c in After(h) ensures c.lastTransitionTime <= c.lastUpdateTime {
      RecordedTimesAreOrdered(h, c);
    }
    forall i: nat, j: nat | i < j < |After(h)| ensures After(h)[i].kind != After(h)[j].kind {
      KindsAreDistinct(h, After(h), i, j);
    }
  }
}
