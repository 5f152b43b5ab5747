/** The preparation-step algorithms of a recipe: inserting a step at a requested
    order, removing one and renumbering, moving one to another order. Each is a
    function on the list of steps; `Recipes.Recipe` runs the same algorithms in place. */
module StepOrdering {
  import opened Outcomes

  /** A preparation step; `duration` is in whole minutes. */
  datatype Step = Step(order: int, description: string, duration: int)

  /** Orders strictly increase along the list: sorted by order, no order used twice. */
  ghost predicate StrictlySorted(s: seq<Step>) {
    forall i, j :: 0 <= i < j < |s| ==> s[i].order < s[j].order
  }

  ghost predicate Positive(s: seq<Step>) {
    forall i :: 0 <= i < |s| ==> s[i].order > 0
  }

  /** The orders are exactly 1..|s|, in that sequence. */
  ghost predicate Contiguous(s: seq<Step>) {
    forall i :: 0 <= i < |s| ==> s[i].order == i + 1
  }

  ghost predicate HasOrder(s: seq<Step>, o: int) {
    exists i :: 0 <= i < |s| && s[i].order == o
  }

  /** Position by position the same steps, whatever orders they carry. */
  ghost predicate SamePayloads(a: seq<Step>, b: seq<Step>) {
    |a| == |b| &&
    forall i :: 0 <= i < |a| ==> a[i].description == b[i].description && a[i].duration == b[i].duration
  }

  /** The first step carrying order `o`, as `std::find_if` finds it. */
  function FirstWithOrder(s: seq<Step>, o: int): (r: Option<nat>)
    ensures r.None? <==> !HasOrder(s, o)
    ensures r.Some? ==> r.value < |s| && s[r.value].order == o
    ensures r.Some? ==> forall j :: 0 <= j < r.value ==> s[j].order != o
  {
    if s == [] then None
    else if s[0].order == o then Some(0)
    else match FirstWithOrder(s[1..], o)
      case None =>
        assert forall j :: 1 <= j < |s| ==> s[j] == s[1..][j - 1];
        None
      case Some(i) => Some(i + 1)
  }

  /** `std::find_if` by order, as the loop it runs. */
  method FindOrder(s: seq<Step>, o: int) returns (r: Option<nat>)
    ensures r == FirstWithOrder(s, o)
  {
    var i := 0;
    while i < |s|
      invariant 0 <= i <= |s|
      invariant forall j :: 0 <= j < i ==> s[j].order != o
    {
      if s[i].order == o {
        return Some(i);
      }
      i := i + 1;
    }
    return None;
  }

  /** Sum of the step durations, accumulated front to back. */
  function TotalTime(s: seq<Step>): int {
    if s == [] then 0 else TotalTime(s[..|s| - 1]) + s[|s| - 1].duration
  }

  // ---------------------------------------------------------------------------
  // push_back followed by std::sort on a list that is already strictly sorted
  // ---------------------------------------------------------------------------

  /** Where a step of order `o` goes: after every step of smaller order. */
  function SlotFor(s: seq<Step>, o: int): (p: nat)
    ensures p <= |s|
    ensures forall j :: 0 <= j < p ==> s[j].order < o
    ensures StrictlySorted(s) ==> forall j :: p <= j < |s| ==> s[j].order >= o
  {
    if s == [] || o <= s[0].order then 0
    else
      var p := 1 + SlotFor(s[1..], o);
      assert forall j :: 1 <= j < |s| ==> s[j] == s[1..][j - 1];
      p
  }

  /** The step list after `push_back(x)` and sorting by order: the same steps with
      `x` added. */
  function InsertSorted(s: seq<Step>, x: Step): (r: seq<Step>)
    ensures |r| == |s| + 1 && multiset(r) == multiset(s) + multiset{x}
  {
    if s == [] || x.order <= s[0].order then [x] + s
    else
      assert s == [s[0]] + s[1..];
      [s[0]] + InsertSorted(s[1..], x)
  }

  /** Inserting splices `x` in at its slot and keeps every other step in place. */
  lemma {:induction false} InsertSortedAtSlot(s: seq<Step>, x: Step)
    ensures InsertSorted(s, x) == s[..SlotFor(s, x.order)] + [x] + s[SlotFor(s, x.order)..]
  {
    if s == [] || x.order <= s[0].order {
    } else {
      InsertSortedAtSlot(s[1..], x);
      ConsSplice(s, SlotFor(s[1..], x.order), x);
    }
  }

  /** Putting the head back in front of a splice into the tail. */
  lemma ConsSplice(s: seq<Step>, p: nat, x: Step)
    requires 0 < |s| && p <= |s| - 1
    ensures [s[0]] + (s[1..][..p] + [x] + s[1..][p..]) == s[..p + 1] + [x] + s[p + 1..]
  {
    assert s[1..][..p] == s[1..p + 1];
    assert s[1..][p..] == s[p + 1..];
    assert [s[0]] + s[1..p + 1] == s[..p + 1];
  }

  /** Where each element of a splice comes from. */
  lemma SpliceIndex(s: seq<Step>, p: nat, x: Step)
    requires p <= |s|
    ensures |s[..p] + [x] + s[p..]| == |s| + 1
    ensures forall j :: 0 <= j < p ==> (s[..p] + [x] + s[p..])[j] == s[j]
    ensures (s[..p] + [x] + s[p..])[p] == x
    ensures forall j :: p < j <= |s| ==> (s[..p] + [x] + s[p..])[j] == s[j - 1]
  {
  }

  /** A step whose order exceeds every order in the list goes at the end. */
  lemma {:induction false} SlotAtEnd(s: seq<Step>, o: int)
    requires forall j :: 0 <= j < |s| ==> s[j].order < o
    ensures SlotFor(s, o) == |s|
  {
    if s != [] {
      SlotAtEnd(s[1..], o);
    }
  }

  /** A step whose order lies strictly between the two halves keeps a strictly
      sorted list strictly sorted when spliced in between them. */
  lemma SpliceSorted(s: seq<Step>, p: nat, x: Step)
    requires p <= |s| && StrictlySorted(s)
    requires forall j :: 0 <= j < p ==> s[j].order < x.order
    requires forall j :: p <= j < |s| ==> s[j].order > x.order
    ensures StrictlySorted(s[..p] + [x] + s[p..])
  {
    var r := s[..p] + [x] + s[p..];
    SpliceIndex(s, p, x);
    forall i, j | 0 <= i < j < |r| ensures r[i].order < r[j].order {
      if j < p {
        assert r[i].order == s[i].order && r[j].order == s[j].order;
      } else if j == p {
        assert r[i].order == s[i].order;
      } else if i < p {
        assert r[i].order == s[i].order && r[j].order == s[j - 1].order;
      } else if i > p {
        assert r[i].order == s[i - 1].order && r[j].order == s[j - 1].order;
      }
    }
  }

  /** Inserting a step whose order is free yields a strictly sorted permutation of
      `s + [x]`: the list std::sort produces after `push_back(x)`. */
  lemma InsertSortedSorts(s: seq<Step>, x: Step)
    requires StrictlySorted(s) && !HasOrder(s, x.order)
    ensures StrictlySorted(InsertSorted(s, x))
    ensures multiset(InsertSorted(s, x)) == multiset(s + [x])
    ensures |InsertSorted(s, x)| == |s| + 1
  {
    InsertSortedAtSlot(s, x);
    var p := SlotFor(s, x.order);
    assert forall j :: p <= j < |s| ==> s[j].order > x.order;
    SpliceSorted(s, p, x);
    assert s == s[..p] + s[p..];
  }

  lemma MultisetTail(a: seq<Step>)
    requires |a| > 0
    ensures multiset(a[1..]) == multiset(a) - multiset{a[0]}
  {
    assert a == [a[0]] + a[1..];
  }

  /** A strictly sorted list is determined by its elements: whatever algorithm
      std::sort uses, sorting a list with distinct orders has one possible outcome. */
  lemma {:induction false} SortUnique(a: seq<Step>, b: seq<Step>)
    requires StrictlySorted(a) && StrictlySorted(b)
    requires multiset(a) == multiset(b)
    ensures a == b
  {
    assert |a| == |multiset(a)| == |multiset(b)| == |b|;
    if a != [] {
      SortedHeadsAgree(a, b);
      MultisetTail(a);
      MultisetTail(b);
      SortUnique(a[1..], b[1..]);
      assert a == [a[0]] + a[1..] && b == [b[0]] + b[1..];
    }
  }

  /** Two strictly sorted lists with the same elements start with the same step: the
      one of least order. */
  lemma SortedHeadsAgree(a: seq<Step>, b: seq<Step>)
    requires StrictlySorted(a) && StrictlySorted(b)
    requires multiset(a) == multiset(b) && a != []
    ensures b != [] && a[0] == b[0]
  {
    assert a[0] in multiset(b);
    var j :| 0 <= j < |b| && b[j] == a[0];
    assert b[0] in multiset(a);
    var i :| 0 <= i < |a| && a[i] == b[0];
    assert a[0].order <= a[i].order;
    assert b[0].order <= b[j].order;
    assert j == 0;
  }

  // ---------------------------------------------------------------------------
  // addStep
  // ---------------------------------------------------------------------------

  /** One step after the collision shift: orders at or past `k` move up by one. */
  function Bumped(st: Step, k: int): Step {
    if st.order >= k then st.(order := st.order + 1) else st
  }

  function Bump(s: seq<Step>, k: int): seq<Step> {
    seq(|s|, i requires 0 <= i < |s| => Bumped(s[i], k))
  }

  /** The list just before `push_back`: shifted only when order `k` is already taken. */
  function MakeRoom(s: seq<Step>, k: int): seq<Step> {
    if FirstWithOrder(s, k).Some? then Bump(s, k) else s
  }

  /** Recipe::addStep: reject a non-positive order; otherwise make room and insert. */
  function AddStep(s: seq<Step>, x: Step): (r: Result<seq<Step>>)
    ensures r.Failure? <==> x.order <= 0
    ensures r.Success? ==> |r.value| == |s| + 1 && x in r.value
  {
    if x.order <= 0 then Failure("Step order must be positive")
    else
      var r := InsertSorted(MakeRoom(s, x.order), x);
      assert x in multiset(r);
      Success(r)
  }

  /** Making room keeps the list strictly sorted and positive, keeps every step's
      description and duration, and leaves order `k` free. */
  lemma MakeRoomFreesSlot(s: seq<Step>, k: int)
    requires StrictlySorted(s)
    ensures StrictlySorted(MakeRoom(s, k)) && !HasOrder(MakeRoom(s, k), k)
    ensures SamePayloads(MakeRoom(s, k), s)
    ensures Positive(s) ==> Positive(MakeRoom(s, k))
  {
    var m := MakeRoom(s, k);
    if FirstWithOrder(s, k).Some? {
      assert forall i :: 0 <= i < |m| ==> m[i] == Bumped(s[i], k);
      assert forall i :: 0 <= i < |m| ==> m[i].order != k;
    }
  }

  /** addStep throws exactly when the order is not positive; otherwise the list grows
      by one, stays strictly sorted and positive, and is the sorted arrangement of the
      shifted old steps plus the new one. */
  lemma AddStepSpec(s: seq<Step>, x: Step)
    requires StrictlySorted(s) && Positive(s)
    ensures AddStep(s, x).Failure? <==> x.order <= 0
    ensures AddStep(s, x).Success? ==>
      var r := AddStep(s, x).value;
      |r| == |s| + 1 && StrictlySorted(r) && Positive(r) &&
      multiset(r) == multiset(MakeRoom(s, x.order) + [x])
  {
    if x.order > 0 {
      var m := MakeRoom(s, x.order);
      MakeRoomFreesSlot(s, x.order);
      InsertSortedSorts(m, x);
      var r := InsertSorted(m, x);
      assert r == AddStep(s, x).value;
      forall i | 0 <= i < |r| ensures r[i].order > 0 {
        assert r[i] in multiset(m + [x]);
        assert r[i] in m + [x];
      }
    }
  }

  /** When order `k` is taken (first at index `i`), the new step claims index `i`, the
      previous occupant follows it with order `k + 1`, and every step from `i` on is
      shifted up by one while the ones before `i` are untouched. */
  lemma AddStepCollision(s: seq<Step>, x: Step, i: nat)
    requires StrictlySorted(s) && x.order > 0
    requires FirstWithOrder(s, x.order) == Some(i)
    ensures AddStep(s, x) == Success(Bump(s, x.order)[..i] + [x] + Bump(s, x.order)[i..])
    ensures AddStep(s, x).value[i] == x
    ensures AddStep(s, x).value[i + 1] == s[i].(order := x.order + 1)
  {
    var k := x.order;
    var m := Bump(s, k);
    InsertSortedAtSlot(m, x);
    MakeRoomFreesSlot(s, k);
    var p := SlotFor(m, k);
    assert m[i].order == k + 1;
    if i > 0 {
      assert s[i - 1].order < k;
      assert m[i - 1] == s[i - 1];
    }
    assert p == i;
  }

  /** With orders exactly 1..N and a requested order in 1..N+1, the orders after
      addStep are exactly 1..N+1. */
  lemma AddStepKeepsContiguous(s: seq<Step>, x: Step)
    requires Contiguous(s) && 1 <= x.order <= |s| + 1
    ensures AddStep(s, x).Success? && Contiguous(AddStep(s, x).value)
  {
    var k := x.order;
    var m := MakeRoom(s, k);
    if k <= |s| {
      assert s[k - 1].order == k;
      assert HasOrder(s, k);
      assert m == Bump(s, k);
    } else {
      assert !HasOrder(s, k);
    }
    assert GapAfter(m, k - 1);
    SlotIsGap(m, k);
    InsertSortedAtSlot(m, x);
    SpliceIndex(m, k - 1, x);
  }

  /** The contiguity is conditional: asking for an order past N+1 appends the step
      with that order and leaves a gap. */
  lemma AddStepPastEndLeavesGap(s: seq<Step>, x: Step)
    requires Contiguous(s) && x.order > |s| + 1
    ensures AddStep(s, x) == Success(s + [x])
    ensures !Contiguous(AddStep(s, x).value)
  {
    assert !HasOrder(s, x.order);
    InsertSortedAtSlot(s, x);
    SlotAtEnd(s, x.order);
    assert s[..|s|] + [x] + s[|s|..] == s + [x];
    var r := s + [x];
    assert r[|s|].order != |s| + 1;
  }

  /** addStep adds exactly the new step's duration to the total time. */
  lemma AddStepTotalTime(s: seq<Step>, x: Step)
    requires StrictlySorted(s) && x.order > 0
    ensures TotalTime(AddStep(s, x).value) == TotalTime(s) + x.duration
  {
    var m := MakeRoom(s, x.order);
    MakeRoomFreesSlot(s, x.order);
    InsertSortedAtSlot(m, x);
    var p := SlotFor(m, x.order);
    TotalTimeSplice(m, p, x);
    TotalTimeSamePayloads(m, s);
  }

  // ---------------------------------------------------------------------------
  // removeStep
  // ---------------------------------------------------------------------------

  /** Orders 1, 2, 3, ... in the current sequence of the list. */
  function Renumber(s: seq<Step>): seq<Step> {
    seq(|s|, i requires 0 <= i < |s| => s[i].(order := i + 1))
  }

  /** Recipe::removeStep: erase the first step with order `o` and renumber; a missing
      order changes nothing. */
  function RemoveStep(s: seq<Step>, o: int): (r: seq<Step>)
    ensures |r| == if HasOrder(s, o) then |s| - 1 else |s|
  {
    match FirstWithOrder(s, o)
    case None => s
    case Some(i) => Renumber(s[..i] + s[i + 1..])
  }

  /** A missing order is a no-op; otherwise one step fewer, orders exactly 1..N-1, and
      the remaining steps in their previous relative sequence. */
  lemma RemoveStepSpec(s: seq<Step>, o: int)
    ensures !HasOrder(s, o) ==> RemoveStep(s, o) == s
    ensures HasOrder(s, o) ==>
      var i := FirstWithOrder(s, o).value;
      var r := RemoveStep(s, o);
      |r| == |s| - 1 && Contiguous(r) && SamePayloads(r, s[..i] + s[i + 1..])
  {
    if HasOrder(s, o) {
      var i := FirstWithOrder(s, o).value;
      var rest := s[..i] + s[i + 1..];
      assert RemoveStep(s, o) == Renumber(rest);
      assert |rest| == |s| - 1;
    }
  }

  /** removeStep lowers the total time by exactly the removed step's duration. */
  lemma RemoveStepTotalTime(s: seq<Step>, o: int)
    ensures !HasOrder(s, o) ==> TotalTime(RemoveStep(s, o)) == TotalTime(s)
    ensures HasOrder(s, o) ==>
      TotalTime(RemoveStep(s, o)) == TotalTime(s) - s[FirstWithOrder(s, o).value].duration
  {
    if HasOrder(s, o) {
      var i := FirstWithOrder(s, o).value;
      var rest := s[..i] + s[i + 1..];
      TotalTimeSamePayloads(Renumber(rest), rest);
      TotalTimeWithout(s, i);
    }
  }

  /** Taking out the step at `i` lowers the total time by its duration. */
  lemma TotalTimeWithout(s: seq<Step>, i: nat)
    requires i < |s|
    ensures TotalTime(s[..i] + s[i + 1..]) == TotalTime(s) - s[i].duration
  {
    TotalTimeSplit(s[..i], s[i], s[i + 1..]);
    Rejoin(s, i);
  }

  lemma Rejoin(s: seq<Step>, i: nat)
    requires i < |s|
    ensures s[..i] + [s[i]] + s[i + 1..] == s
  {
  }

  lemma TotalTimeSplit(a: seq<Step>, x: Step, b: seq<Step>)
    ensures TotalTime(a + [x] + b) == TotalTime(a + b) + x.duration
  {
    TotalTimeSnoc(a, x);
    TotalTimeConcat(a + [x], b);
    TotalTimeConcat(a, b);
  }

  lemma TotalTimeSnoc(s: seq<Step>, x: Step)
    ensures TotalTime(s + [x]) == TotalTime(s) + x.duration
  {
    assert (s + [x])[..|s|] == s;
  }

  // ---------------------------------------------------------------------------
  // reorderStep
  // ---------------------------------------------------------------------------

  /** The order a remaining step gets when the step at `from` moves to `to`: those
      strictly between the two positions move one toward the vacated slot. */
  function ShiftOrder(o: int, from: int, to: int): int {
    if from < to then (if o > from && o <= to then o - 1 else o)
    else (if o >= to && o < from then o + 1 else o)
  }

  function Shift(s: seq<Step>, from: int, to: int): seq<Step> {
    seq(|s|, i requires 0 <= i < |s| => s[i].(order := ShiftOrder(s[i].order, from, to)))
  }

  /** Recipe::reorderStep: validate, extract the step, shift the others, reinsert the
      step at `to` and sort. It throws exactly when an order is not positive or no
      step has `from`; otherwise the list keeps its length and holds the moved step
      with its new order. */
  function ReorderStep(s: seq<Step>, from: int, to: int): (r: Result<seq<Step>>)
    ensures r.Failure? <==> from <= 0 || to <= 0 || !HasOrder(s, from)
    ensures r.Success? ==> |r.value| == |s| && s[FirstWithOrder(s, from).value].(order := to) in r.value
  {
    if from <= 0 || to <= 0 then Failure("Step orders must be positive")
    else match FirstWithOrder(s, from)
      case None => Failure("Step with old order not found")
      case Some(i) =>
        var r := InsertSorted(Shift(s[..i] + s[i + 1..], from, to), s[i].(order := to));
        assert s[i].(order := to) in multiset(r);
        Success(r)
  }

  /** Shifting the others, with the moved step's order absent, keeps them strictly
      sorted and positive, keeps their descriptions and durations, and frees `to`. */
  lemma ShiftFreesTarget(rest: seq<Step>, from: int, to: int)
    requires StrictlySorted(rest) && !HasOrder(rest, from)
    ensures StrictlySorted(Shift(rest, from, to)) && !HasOrder(Shift(rest, from, to), to)
    ensures SamePayloads(Shift(rest, from, to), rest)
    ensures Positive(rest) && from > 0 && to > 0 ==> Positive(Shift(rest, from, to))
  {
    var sh := Shift(rest, from, to);
    forall i, j | 0 <= i < j < |sh| ensures sh[i].order < sh[j].order {
      assert rest[i].order != from && rest[j].order != from;
      assert rest[i].order < rest[j].order;
    }
    assert forall i :: 0 <= i < |sh| ==> rest[i].order != from && sh[i].order != to;
  }

  /** The others after extraction are strictly sorted and do not use the moved order. */
  lemma ExtractLeavesGap(s: seq<Step>, i: nat)
    requires StrictlySorted(s) && i < |s|
    ensures StrictlySorted(s[..i] + s[i + 1..]) && !HasOrder(s[..i] + s[i + 1..], s[i].order)
    ensures Positive(s) ==> Positive(s[..i] + s[i + 1..])
  {
    var rest := s[..i] + s[i + 1..];
    assert forall j :: 0 <= j < |rest| ==> rest[j] == if j < i then s[j] else s[j + 1];
  }

  /** Taking the spliced-in step out again gives back the list it was spliced into. */
  lemma SpliceRemove(s: seq<Step>, p: nat, x: Step)
    requires p <= |s|
    ensures (s[..p] + [x] + s[p..])[..p] + (s[..p] + [x] + s[p..])[p + 1..] == s
  {
    var r := s[..p] + [x] + s[p..];
    assert r[..p] == s[..p];
    assert r[p + 1..] == s[p..];
  }

  lemma SplicePositive(s: seq<Step>, p: nat, x: Step)
    requires p <= |s| && Positive(s) && x.order > 0
    ensures Positive(s[..p] + [x] + s[p..])
  {
    SpliceIndex(s, p, x);
  }

  /** On success reorderStep keeps the length and strict order; the moved step keeps
      its description and duration and now carries `to`; removing it leaves the other
      steps, with their shifted orders, in their previous relative sequence; and the
      result is the sorted arrangement of those steps. */
  lemma ReorderStepSpec(s: seq<Step>, from: int, to: int)
    requires StrictlySorted(s) && Positive(s)
    requires from > 0 && to > 0 && HasOrder(s, from)
    ensures
      var i := FirstWithOrder(s, from).value;
      var others := Shift(s[..i] + s[i + 1..], from, to);
      var p := SlotFor(others, to);
      var r := ReorderStep(s, from, to).value;
      |r| == |s| && StrictlySorted(r) && Positive(r) &&
      p < |r| && r[p] == s[i].(order := to) && r[..p] + r[p + 1..] == others &&
      SamePayloads(others, s[..i] + s[i + 1..]) &&
      multiset(r) == multiset(others + [s[i].(order := to)])
  {
    var i := FirstWithOrder(s, from).value;
    var rest := s[..i] + s[i + 1..];
    var moved := s[i].(order := to);
    ExtractLeavesGap(s, i);
    ShiftFreesTarget(rest, from, to);
    var others := Shift(rest, from, to);
    assert ReorderStep(s, from, to).value == InsertSorted(others, moved);
    InsertSortedSorts(others, moved);
    InsertSortedAtSlot(others, moved);
    var p := SlotFor(others, to);
    SpliceIndex(others, p, moved);
    SpliceRemove(others, p, moved);
    SplicePositive(others, p, moved);
  }

  /** reorderStep from the step found at `i`: what it computes and that the result
      is again strictly sorted and positive. */
  lemma ReorderStepAt(s: seq<Step>, from: int, to: int, i: nat)
    requires StrictlySorted(s) && Positive(s)
    requires from > 0 && to > 0 && FirstWithOrder(s, from) == Some(i)
    ensures ReorderStep(s, from, to) == Success(InsertSorted(Shift(s[..i] + s[i + 1..], from, to), s[i].(order := to)))
    ensures StrictlySorted(ReorderStep(s, from, to).value) && Positive(ReorderStep(s, from, to).value)
  {
    ReorderStepSpec(s, from, to);
  }

  /** Orders 1..N with the step at index `i` taken out: a gap right after `i`. */
  ghost predicate GapAfter(s: seq<Step>, g: int) {
    forall j :: 0 <= j < |s| ==> s[j].order == if j < g then j + 1 else j + 2
  }

  /** Shifting the others toward the vacated slot moves the gap to the target. */
  lemma ShiftMovesGap(rest: seq<Step>, from: int, to: int)
    requires GapAfter(rest, from - 1) && 1 <= from <= |rest| + 1 && 1 <= to <= |rest| + 1
    ensures GapAfter(Shift(rest, from, to), to - 1)
  {
  }

  /** A step with order `to` slots into the gap at index `to - 1`. */
  lemma SlotIsGap(others: seq<Step>, to: int)
    requires GapAfter(others, to - 1) && 1 <= to <= |others| + 1
    ensures SlotFor(others, to) == to - 1
  {
    assert StrictlySorted(others);
    if to - 1 < |others| {
      assert others[to - 1].order == to + 1;
    }
    if to >= 2 {
      assert others[to - 2].order == to - 1;
    }
  }

  /** With orders exactly 1..N and `to` in 1..N, reorderStep succeeds for every `from`
      in 1..N and the orders stay exactly 1..N. */
  lemma ReorderStepKeepsContiguous(s: seq<Step>, from: int, to: int)
    requires Contiguous(s) && 1 <= from <= |s| && 1 <= to <= |s|
    ensures ReorderStep(s, from, to).Success?
    ensures Contiguous(ReorderStep(s, from, to).value)
  {
    assert s[from - 1].order == from;
    assert HasOrder(s, from);
    var i := FirstWithOrder(s, from).value;
    assert i == from - 1;
    var rest := s[..i] + s[i + 1..];
    assert GapAfter(rest, i);
    ShiftMovesGap(rest, from, to);
    var others := Shift(rest, from, to);
    var moved := s[i].(order := to);
    SlotIsGap(others, to);
    InsertSortedAtSlot(others, moved);
    SpliceIndex(others, to - 1, moved);
    assert ReorderStep(s, from, to).value == others[..to - 1] + [moved] + others[to - 1..];
  }

  /** The contiguity is conditional: moving a step past N leaves a gap. */
  lemma ReorderStepPastEndLeavesGap(s: seq<Step>, from: int, to: int)
    requires Contiguous(s) && 1 <= from <= |s| && to > |s|
    ensures ReorderStep(s, from, to).Success?
    ensures !Contiguous(ReorderStep(s, from, to).value)
  {
    assert s[from - 1].order == from;
    ReorderStepSpec(s, from, to);
  }

  /** reorderStep leaves the total time unchanged. */
  lemma ReorderStepTotalTime(s: seq<Step>, from: int, to: int)
    requires from > 0 && to > 0 && HasOrder(s, from)
    ensures TotalTime(ReorderStep(s, from, to).value) == TotalTime(s)
  {
    var i := FirstWithOrder(s, from).value;
    var rest := s[..i] + s[i + 1..];
    var others := Shift(rest, from, to);
    var moved := s[i].(order := to);
    assert ReorderStep(s, from, to).value == InsertSorted(others, moved);
    InsertSortedAtSlot(others, moved);
    TotalTimeSplice(others, SlotFor(others, to), moved);
    assert SamePayloads(others, rest);
    TotalTimeSamePayloads(others, rest);
    TotalTimeWithout(s, i);
  }

  /** The documented example: orders {1, 2, 3} and reorderStep(3, 1) give old 3 -> 1,
      old 1 -> 2, old 2 -> 3. */
  lemma ReorderStepExample(a: Step, b: Step, c: Step)
    requires a.order == 1 && b.order == 2 && c.order == 3
    ensures ReorderStep([a, b, c], 3, 1) ==
      Success([c.(order := 1), a.(order := 2), b.(order := 3)])
  {
    var s := [a, b, c];
    assert s[1..] == [b, c] && s[1..][1..] == [c];
    assert FirstWithOrder([c], 3) == Some(0);
    assert FirstWithOrder([b, c], 3) == Some(1);
    assert FirstWithOrder(s, 3) == Some(2);
    assert s[..2] + s[3..] == [a, b];
    var others := Shift([a, b], 3, 1);
    assert others == [a.(order := 2), b.(order := 3)];
    assert InsertSorted(others, c.(order := 1)) == [c.(order := 1)] + others;
    assert ReorderStep(s, 3, 1) == Success(InsertSorted(Shift(s[..2] + s[3..], 3, 1), s[2].(order := 1)));
    assert [c.(order := 1)] + others == [c.(order := 1), a.(order := 2), b.(order := 3)];
  }

  // ---------------------------------------------------------------------------
  // Rebuilding the list from its stored form
  // ---------------------------------------------------------------------------

  /** Feeding `xs` to addStep one by one, starting from `acc`, as deserialization does. */
  function ReplaySteps(acc: seq<Step>, xs: seq<Step>): Result<seq<Step>>
    decreases |xs|
  {
    if xs == [] then Success(acc)
    else match AddStep(acc, xs[0])
      case Failure(m) => Failure(m)
      case Success(next) => ReplaySteps(next, xs[1..])
  }

  /** Replaying a strictly sorted list of positive orders through addStep rebuilds it
      exactly: every step arrives after the ones already there, so nothing shifts. */
  lemma {:induction false} ReplayRebuilds(acc: seq<Step>, xs: seq<Step>)
    requires StrictlySorted(acc + xs) && Positive(xs)
    ensures ReplaySteps(acc, xs) == Success(acc + xs)
    decreases |xs|
  {
    if xs != [] {
      var x := xs[0];
      assert (acc + xs)[|acc|] == x;
      assert forall j :: 0 <= j < |acc| ==> acc[j] == (acc + xs)[j];
      AddStepAtEnd(acc, x);
      assert (acc + [x]) + xs[1..] == acc + xs;
      ReplayRebuilds(acc + [x], xs[1..]);
    } else {
      assert acc + xs == acc;
    }
  }

  /** A step whose order is above every order in the list is appended by addStep. */
  lemma AddStepAtEnd(acc: seq<Step>, x: Step)
    requires x.order > 0 && forall j :: 0 <= j < |acc| ==> acc[j].order < x.order
    ensures AddStep(acc, x) == Success(acc + [x])
  {
    assert !HasOrder(acc, x.order);
    InsertSortedAtSlot(acc, x);
    SlotAtEnd(acc, x.order);
    assert acc[..|acc|] + [x] + acc[|acc|..] == acc + [x];
  }

  // ---------------------------------------------------------------------------
  // Total time
  // ---------------------------------------------------------------------------

  lemma {:induction false} TotalTimeConcat(a: seq<Step>, b: seq<Step>)
    ensures TotalTime(a + b) == TotalTime(a) + TotalTime(b)
    decreases |b|
  {
    if b != [] {
      var b' := b[..|b| - 1];
      assert (a + b)[..|a + b| - 1] == a + b';
      TotalTimeConcat(a, b');
    } else {
      assert a + b == a;
    }
  }

  /** Only durations matter: renumbering or shifting orders keeps the total time. */
  lemma {:induction false} TotalTimeSamePayloads(a: seq<Step>, b: seq<Step>)
    requires SamePayloads(a, b)
    ensures TotalTime(a) == TotalTime(b)
    decreases |a|
  {
    if a != [] {
      TotalTimeSamePayloads(a[..|a| - 1], b[..|b| - 1]);
    }
  }

  lemma TotalTimeSplice(s: seq<Step>, p: nat, x: Step)
    requires p <= |s|
    ensures TotalTime(s[..p] + [x] + s[p..]) == TotalTime(s) + x.duration
  {
    TotalTimeConcat(s[..p] + [x], s[p..]);
    TotalTimeConcat(s[..p], [x]);
    TotalTimeConcat(s[..p], s[p..]);
    assert s[..p] + s[p..] == s;
    assert [x][..0] == [];
  }
}
