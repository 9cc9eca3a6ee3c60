/** The per-thread stack of component timers that measures exclusive time. */
module TimerStack {
  import opened Results

  const CAPACITY: nat := 32

  datatype Entry = Entry(accumulator: nat, component: nat, started: int, elapsed: int, running: bool)

  /** A duration added to one component of an accumulator. */
  datatype Charge = Charge(accumulator: nat, component: nat, duration: int)

  // ---------- One timer ----------

  function Paused(entry: Entry, now: int): Entry {
    if entry.running then entry.(elapsed := entry.elapsed + (now - entry.started), running := false) else entry
  }

  function Resumed(entry: Entry, now: int): Entry {
    entry.(started := now, running := true)
  }

  /** The entries after a timer was opened, and its place unless it stays inactive. */
  function Open(entries: seq<Entry>, bound: Option<nat>, component: nat, now: int): (seq<Entry>, Option<nat>) {
    var top := |entries| - 1;
    if bound == None || |entries| == CAPACITY then (entries, None)
    else
      var below := if entries == [] then [] else entries[top := Paused(entries[top], now)];
      (below + [Entry(bound.value, component, now, 0, true)], Some(|entries|))
  }

  /** The entries after a timer was closed, and what it charges. */
  function Close(entries: seq<Entry>, place: Option<nat>, now: int): (seq<Entry>, seq<Charge>)
    requires place.Some? ==> place.value < |entries|
  {
    match place
    case None => (entries, [])
    case Some(index) =>
      var entry := Paused(entries[index], now);
      var below := entries[..index];
      (if index == 0 then [] else below[index - 1 := Resumed(below[index - 1], now)],
       [Charge(entry.accumulator, entry.component, entry.elapsed)])
  }

  class ComponentTimerStack {
    const entries: array<Entry>
    var depth: nat

    predicate Valid()
      reads this
    {
      entries.Length == CAPACITY && depth <= CAPACITY
    }

    function View(): seq<Entry>
      reads this, entries
      requires Valid()
    {
      entries[..depth]
    }

    constructor ()
      ensures Valid() && View() == [] && fresh(entries)
    {
      entries := new Entry[CAPACITY](_ => Entry(0, 0, 0, 0, false));
      depth := 0;
    }

    method PauseTop(now: int)
      requires Valid() && depth != 0
      modifies entries
      ensures View() == old(View())[depth - 1 := Paused(old(View())[depth - 1], now)]
    {
      var entry := entries[depth - 1];
      if !entry.running {
        return;
      }
      entries[depth - 1] := entry.(elapsed := entry.elapsed + (now - entry.started), running := false);
    }

    /** The constructor of a scoped timer. */
    method OpenTimer(bound: Option<nat>, component: nat, now: int) returns (place: Option<nat>)
      requires Valid()
      modifies this, entries
      ensures Valid()
      ensures (View(), place) == Open(old(View()), bound, component, now)
    {
      if bound == None || depth == entries.Length {
        return None;
      }
      if depth != 0 {
        PauseTop(now);
      }
      ghost var below := View();
      entries[depth] := Entry(bound.value, component, now, 0, true);
      place := Some(depth);
      depth := depth + 1;
      assert View() == below + [entries[depth - 1]];
    }

    /** The destructor of a scoped timer. */
    method CloseTimer(place: Option<nat>, now: int) returns (charges: seq<Charge>)
      requires Valid() && (place.Some? ==> place.value < depth)
      modifies this, entries
      ensures Valid()
      ensures (View(), charges) == Close(old(View()), place, now)
    {
      if place == None {
        return [];
      }
      var index := place.value;
      var entry := entries[index];
      if entry.running {
        entry := entry.(elapsed := entry.elapsed + (now - entry.started), running := false);
        entries[index] := entry;
      }
      charges := [Charge(entry.accumulator, entry.component, entry.elapsed)];
      depth := index;
      if depth != 0 {
        var below := entries[depth - 1];
        entries[depth - 1] := below.(started := now, running := true);
      }
      assert View() == Close(old(View()), place, now).0;
    }
  }

  // ---------- Runs of a thread ----------

  datatype Event = Enter(bound: Option<nat>, component: nat, now: int) | Exit(now: int)

  /** The entries, the place of every open timer object from the outermost in, and the charges so far. */
  datatype State = State(entries: seq<Entry>, places: seq<Option<nat>>, charges: seq<Charge>)

  predicate Matches(places: seq<Option<nat>>, depth: nat) {
    if places == [] then depth == 0
    else
      match places[|places| - 1]
      case None => Matches(places[..|places| - 1], depth)
      case Some(index) => depth == index + 1 && Matches(places[..|places| - 1], index)
  }

  /** The active timers occupy the entries in order, and of those only the innermost runs. */
  predicate Tidy(s: State) {
    && Matches(s.places, |s.entries|) && |s.entries| <= CAPACITY
    && forall k :: 0 <= k < |s.entries| ==> (s.entries[k].running <==> k == |s.entries| - 1)
  }

  /** One event; timers are closed innermost first. */
  function Step(s: State, e: Event): State
    requires Tidy(s)
  {
    match e
    case Enter(bound, component, now) =>
      var (entries, place) := Open(s.entries, bound, component, now);
      State(entries, s.places + [place], s.charges)
    case Exit(now) =>
      if s.places == [] then s
      else
        var (entries, charges) := Close(s.entries, s.places[|s.places| - 1], now);
        State(entries, s.places[..|s.places| - 1], s.charges + charges)
  }

  lemma TidyStep(s: State, e: Event)
    requires Tidy(s)
    ensures Tidy(Step(s, e))
  {
    if e.Enter? {
      assert Step(s, e).places[..|s.places|] == s.places;
    }
  }

  function Run(s: State, events: seq<Event>): (r: State)
    requires Tidy(s)
    ensures Tidy(r)
    decreases |events|
  {
    if events == [] then s
    else
      TidyStep(s, events[0]);
      Run(Step(s, events[0]), events[1..])
  }

  lemma {:induction false} RunConcat(s: State, a: seq<Event>, b: seq<Event>)
    requires Tidy(s)
    ensures Run(s, a + b) == Run(Run(s, a), b)
    decreases |a|
  {
    if a == [] {
      assert a + b == b;
    } else {
      TidyStep(s, a[0]);
      RunConcat(Step(s, a[0]), a[1..], b);
      assert (a + b)[1..] == a[1..] + b;
    }
  }

  // ---------- No time is made or lost ----------

  function Total(charges: seq<Charge>): int {
    if charges == [] then 0 else Total(charges[..|charges| - 1]) + charges[|charges| - 1].duration
  }

  function Stored(entries: seq<Entry>): int {
    if entries == [] then 0 else Stored(entries[..|entries| - 1]) + entries[|entries| - 1].elapsed
  }

  /** The time held by open timers: stored in the paused ones, and still running in the innermost. */
  function Held(entries: seq<Entry>, now: int): int {
    Stored(entries) + if entries == [] then 0 else now - entries[|entries| - 1].started
  }

  /** All time measured up to `now`. */
  function Measured(s: State, now: int): int {
    Total(s.charges) + Held(s.entries, now)
  }

  lemma StoredTop(below: seq<Entry>, top: Entry)
    ensures Stored(below + [top]) == Stored(below) + top.elapsed
  {
    assert (below + [top])[..|below|] == below;
  }

  lemma TotalTop(charges: seq<Charge>, last: Charge)
    ensures Total(charges + [last]) == Total(charges) + last.duration
  {
    assert (charges + [last])[..|charges|] == charges;
  }

  /** Opening or closing a timer, nested or not, active or not, leaves the measured time as it was. */
  lemma StepConserves(s: State, e: Event)
    requires Tidy(s)
    ensures Measured(Step(s, e), e.now) == Measured(s, e.now)
  {
    if e.Enter? {
      OpenConserves(s.entries, e.bound, e.component, e.now);
    } else if s.places != [] {
      CloseConserves(s, e.now);
    }
  }

  lemma OpenConserves(entries: seq<Entry>, bound: Option<nat>, component: nat, now: int)
    requires forall k :: 0 <= k < |entries| ==> (entries[k].running <==> k == |entries| - 1)
    ensures Held(Open(entries, bound, component, now).0, now) == Held(entries, now)
  {
    var n := |entries|;
    if bound.Some? && n != CAPACITY {
      var top := Entry(bound.value, component, now, 0, true);
      if n == 0 {
        StoredTop([], top);
        assert [] + [top] == [top];
      } else {
        var paused := Paused(entries[n - 1], now);
        assert entries[n - 1 := paused] == entries[..n - 1] + [paused];
        StoredTop(entries[..n - 1], paused);
        StoredTop(entries[n - 1 := paused], top);
      }
    }
  }

  lemma CloseConserves(s: State, now: int)
    requires Tidy(s) && s.places != []
    ensures Measured(Step(s, Exit(now)), now) == Measured(s, now)
  {
    var n := |s.entries|;
    var t := Step(s, Exit(now));
    if s.places[|s.places| - 1].Some? {
      var top := Paused(s.entries[n - 1], now);
      TotalTop(s.charges, Charge(top.accumulator, top.component, top.elapsed));
      assert Stored(s.entries) == Stored(s.entries[..n - 1]) + s.entries[n - 1].elapsed;
      if n > 1 {
        var below := s.entries[..n - 1];
        var resumed := Resumed(below[n - 2], now);
        assert below[n - 2 := resumed] == below[..n - 2] + [resumed];
        StoredTop(below[..n - 2], resumed);
        assert t.entries == below[n - 2 := resumed];
        assert Stored(below) == Stored(below[..n - 2]) + below[n - 2].elapsed;
      }
    } else {
      assert s.charges + [] == s.charges;
    }
  }

  // ---------- Exclusive time ----------

  /** A timed scope of the program and the scopes inside it, in order. */
  datatype Scope = Scope(bound: Option<nat>, component: nat, begin: int, inner: seq<Scope>, end: int)

  function ScopeEvents(scope: Scope): seq<Event> {
    [Enter(scope.bound, scope.component, scope.begin)] + Events(scope.inner) + [Exit(scope.end)]
  }

  function Events(scopes: seq<Scope>): seq<Event> {
    if scopes == [] then []
    else Events(scopes[..|scopes| - 1]) + ScopeEvents(scopes[|scopes| - 1])
  }

  /** Whether a scope that opens at some depth gets an entry. */
  predicate Active(scope: Scope, depth: nat) {
    scope.bound.Some? && depth < CAPACITY
  }

  /** The wall time of a scope, or of the outermost active scopes inside an inactive one. */
  function ScopeWall(scope: Scope, depth: nat): int {
    if Active(scope, depth) then scope.end - scope.begin else Wall(scope.inner, depth)
  }

  function Wall(scopes: seq<Scope>, depth: nat): int {
    if scopes == [] then 0
    else Wall(scopes[..|scopes| - 1], depth) + ScopeWall(scopes[|scopes| - 1], depth)
  }

  /** What a scope is to be charged: its own wall time less that of the active scopes inside it. */
  function ScopeExclusive(scope: Scope, depth: nat): seq<Charge> {
    if Active(scope, depth) then
      Exclusive(scope.inner, depth + 1)
      + [Charge(scope.bound.value, scope.component, (scope.end - scope.begin) - Wall(scope.inner, depth + 1))]
    else Exclusive(scope.inner, depth)
  }

  function Exclusive(scopes: seq<Scope>, depth: nat): seq<Charge> {
    if scopes == [] then []
    else Exclusive(scopes[..|scopes| - 1], depth) + ScopeExclusive(scopes[|scopes| - 1], depth)
  }

  /** The same entries, except that some time was spent inside scopes of the innermost one. */
  ghost predicate Spent(before: seq<Entry>, after: seq<Entry>, time: int) {
    && |after| == |before|
    && (forall k :: 0 <= k < |before| - 1 ==> after[k] == before[k])
    && (before != [] ==>
          var b, a := before[|before| - 1], after[|before| - 1];
          && a.accumulator == b.accumulator && a.component == b.component && a.running == b.running
          && a.elapsed - a.started == b.elapsed - b.started - time)
  }

  /** A run of whole scopes: the open timers are as before, some charges were made, some time was spent. */
  ghost predicate Ran(before: State, after: State, charges: seq<Charge>, time: int) {
    && after.places == before.places
    && after.charges == before.charges + charges
    && Spent(before.entries, after.entries, time)
  }

  /**
   * Running any nest of scopes, however deep, charges every active one exactly its exclusive time, in
   * the order in which they close, and leaves the enclosing timer with that much less of its own.
   */
  lemma {:induction false} RunIsExclusive(s: State, scopes: seq<Scope>)
    requires Tidy(s)
    ensures Ran(s, Run(s, Events(scopes)), Exclusive(scopes, |s.entries|), Wall(scopes, |s.entries|))
    decreases scopes
  {
    if scopes == [] {
      assert s.charges + [] == s.charges;
    } else {
      var n := |scopes| - 1;
      var first, last := Events(scopes[..n]), ScopeEvents(scopes[n]);
      RunIsExclusive(s, scopes[..n]);
      RunScope(Run(s, first), scopes[n]);
      RunConcat(s, first, last);
      RanTwice(s, Run(s, first), Run(s, first + last),
               Exclusive(scopes[..n], |s.entries|), ScopeExclusive(scopes[n], |s.entries|),
               Wall(scopes[..n], |s.entries|), ScopeWall(scopes[n], |s.entries|));
    }
  }

  lemma RanTwice(s: State, t: State, u: State, a: seq<Charge>, b: seq<Charge>, x: int, y: int)
    requires Ran(s, t, a, x) && Ran(t, u, b, y)
    ensures Ran(s, u, a + b, x + y)
  {
    assert s.charges + (a + b) == (s.charges + a) + b;
  }

  lemma {:induction false} RunScope(s: State, scope: Scope)
    requires Tidy(s)
    ensures Ran(s, Run(s, ScopeEvents(scope)), ScopeExclusive(scope, |s.entries|), ScopeWall(scope, |s.entries|))
    decreases scope
  {
    var enter, exit := Enter(scope.bound, scope.component, scope.begin), Exit(scope.end);
    var inner := Events(scope.inner);
    TidyStep(s, enter);
    var within := Step(s, enter);
    RunIsExclusive(within, scope.inner);
    RunConcat(s, [enter] + inner, [exit]);
    RunConcat(s, [enter], inner);
    RunOne(s, enter);
    RunOne(Run(within, inner), exit);
    ScopeClosed(s, scope, Run(within, inner));
  }

  /** Closing a scope whose inner scopes have run. */
  lemma ScopeClosed(s: State, scope: Scope, inside: State)
    requires Tidy(s) && Tidy(inside)
    requires var within := Step(s, Enter(scope.bound, scope.component, scope.begin));
             Ran(within, inside, Exclusive(scope.inner, |within.entries|), Wall(scope.inner, |within.entries|))
    ensures Ran(s, Step(inside, Exit(scope.end)), ScopeExclusive(scope, |s.entries|), ScopeWall(scope, |s.entries|))
  {
    var n := |s.entries|;
    var within := Step(s, Enter(scope.bound, scope.component, scope.begin));
    var after := Step(inside, Exit(scope.end));
    assert within.places[..|s.places|] == s.places;
    var time := Wall(scope.inner, |within.entries|);
    if Active(scope, n) {
      assert inside.entries[n].elapsed - inside.entries[n].started == -scope.begin - time;
      assert after.charges == s.charges + ScopeExclusive(scope, n);
    } else {
      assert after.charges == s.charges + ScopeExclusive(scope, n);
    }
  }

  lemma RunOne(s: State, e: Event)
    requires Tidy(s)
    ensures Run(s, [e]) == Step(s, e)
  {
    TidyStep(s, e);
    assert [e][1..] == [];
  }

  // ---------- Conservation ----------

  lemma {:induction false} TotalConcat(a: seq<Charge>, b: seq<Charge>)
    ensures Total(a + b) == Total(a) + Total(b)
  {
    if b == [] {
      assert a + b == a;
    } else {
      TotalConcat(a, b[..|b| - 1]);
      assert (a + b)[..|a + b| - 1] == a + b[..|b| - 1];
    }
  }

  /** The charges of any nest of scopes add up to the wall time of the outermost active ones. */
  lemma {:induction false} ChargesAddUp(scopes: seq<Scope>, depth: nat)
    ensures Total(Exclusive(scopes, depth)) == Wall(scopes, depth)
    decreases scopes
  {
    if scopes != [] {
      var n := |scopes| - 1;
      var last := scopes[n];
      ChargesAddUp(scopes[..n], depth);
      TotalConcat(Exclusive(scopes[..n], depth), ScopeExclusive(last, depth));
      ChargesAddUp(last.inner, if Active(last, depth) then depth + 1 else depth);
      if Active(last, depth) {
        var own := Charge(last.bound.value, last.component, (last.end - last.begin) - Wall(last.inner, depth + 1));
        TotalTop(Exclusive(last.inner, depth + 1), own);
      }
    }
  }

  /** All that one outermost active scope and the scopes inside it charge is the scope's wall time. */
  lemma OutermostConserved(scope: Scope)
    requires scope.bound.Some?
    ensures var t := Run(State([], [], []), ScopeEvents(scope));
            && t.entries == [] && t.places == []
            && Total(t.charges) == scope.end - scope.begin
  {
    var s := State([], [], []);
    RunScope(s, scope);
    ChargesAddUp([scope], 0);
    assert [scope][..0] == [];
    assert Exclusive([scope], 0) == ScopeExclusive(scope, 0);
  }

  /** A timer with an accumulator is active exactly if fewer than 32 are. */
  lemma ActiveBelow32(entries: seq<Entry>, accumulator: nat, component: nat, now: int)
    ensures Open(entries, None, component, now) == (entries, None)
    ensures |entries| < 32 ==> Open(entries, Some(accumulator), component, now).1 == Some(|entries|)
    ensures |entries| == 32 ==> Open(entries, Some(accumulator), component, now) == (entries, None)
  {
  }

  /** Scopes opened with all entries taken charge nothing: their time stays with the last entry. */
  lemma {:induction false} BeyondCapacity(s: State, scopes: seq<Scope>)
    requires Tidy(s) && |s.entries| == CAPACITY
    ensures Run(s, Events(scopes)).charges == s.charges
    ensures Spent(s.entries, Run(s, Events(scopes)).entries, 0)
  {
    RunIsExclusive(s, scopes);
    NothingBeyond(scopes);
  }

  lemma {:induction false} NothingBeyond(scopes: seq<Scope>)
    ensures Exclusive(scopes, CAPACITY) == [] && Wall(scopes, CAPACITY) == 0
    decreases scopes
  {
    if scopes != [] {
      NothingBeyond(scopes[..|scopes| - 1]);
      NothingBeyond(scopes[|scopes| - 1].inner);
    }
  }

  // ---------- No duration is negative ----------

  /** Scopes that follow one another between two clock readings, and so do those inside each. */
  predicate InOrder(scopes: seq<Scope>, from: int, to: int) {
    if scopes == [] then from <= to
    else
      var last := scopes[|scopes| - 1];
      && last.begin <= last.end <= to
      && InOrder(last.inner, last.begin, last.end)
      && InOrder(scopes[..|scopes| - 1], from, last.begin)
  }

  predicate Within(charges: seq<Charge>, limit: int) {
    forall k :: 0 <= k < |charges| ==> 0 <= charges[k].duration <= limit
  }

  lemma {:induction false} WallBounded(scopes: seq<Scope>, depth: nat, from: int, to: int)
    requires InOrder(scopes, from, to)
    ensures from <= to && 0 <= Wall(scopes, depth) <= to - from
    decreases scopes
  {
    if scopes != [] {
      var last := scopes[|scopes| - 1];
      WallBounded(scopes[..|scopes| - 1], depth, from, last.begin);
      WallBounded(last.inner, depth, last.begin, last.end);
    }
  }

  /**
   * With a clock that never goes back, every charge lies between zero and the length of the run, so
   * 64-bit durations neither underflow nor wrap while the run is shorter than 2^64 nanoseconds.
   */
  lemma {:induction false} ChargesBounded(scopes: seq<Scope>, depth: nat, from: int, to: int)
    requires InOrder(scopes, from, to)
    ensures Within(Exclusive(scopes, depth), to - from)
    decreases scopes
  {
    if scopes != [] {
      var last := scopes[|scopes| - 1];
      var inside := if Active(last, depth) then depth + 1 else depth;
      WallBounded(scopes[..|scopes| - 1], depth, from, last.begin);
      ChargesBounded(scopes[..|scopes| - 1], depth, from, last.begin);
      ChargesBounded(last.inner, inside, last.begin, last.end);
      WallBounded(last.inner, inside, last.begin, last.end);
      assert Within(ScopeExclusive(last, depth), last.end - last.begin);
    }
  }
}
