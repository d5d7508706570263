/** Adapter instance ids: a clock sample raised above the last id by a compare-exchange
    loop, run by any number of adapters at once (driver/src/adapter_context.cpp). */
module Instances {
  import opened Protocol

  const MAX64: int := 0x7FFF_FFFF_FFFF_FFFF

  /** LONG64; the clock is a non-negative one. */
  type Long64 = x: int | -MAX64 - 1 <= x <= MAX64 witness 0

  /** The id an adapter tries for, with the signed increment wrapping. */
  function Candidate(clock: Long64, previous: Long64): Long64 {
    if clock > previous then clock else if previous == MAX64 then -MAX64 - 1 else previous + 1
  }

  /** The candidate is above the id it was computed from exactly until the counter is full. */
  lemma CandidateRises(clock: Long64, previous: Long64)
    ensures Candidate(clock, previous) > previous <==> previous < MAX64
  {
  }

  /** One adapter's initialisation: nothing read yet, or a value read when `commits` ids had
      been issued. */
  datatype Attempt = Outside | HasRead(clock: Long64, previous: Long64, commits: nat)

  /** `issued` is history: every id given out, in order. */
  datatype State = State(last: Long64, attempts: map<nat, Attempt>, issued: seq<Long64>)

  datatype Event = Read(adapter: nat, clock: Long64) | Exchange(adapter: nat)

  function AttemptOf(s: State, adapter: nat): Attempt {
    if adapter in s.attempts then s.attempts[adapter] else Outside
  }

  predicate Enabled(s: State, e: Event) {
    match e
    case Read(adapter, _) => AttemptOf(s, adapter).Outside?
    case Exchange(adapter) => AttemptOf(s, adapter).HasRead?
  }

  predicate Succeeds(s: State, adapter: nat)
    requires AttemptOf(s, adapter).HasRead?
  {
    AttemptOf(s, adapter).previous == s.last
  }

  /** A failed exchange reads the counter again with the same clock sample. */
  function Next(s: State, e: Event): State
    requires Enabled(s, e)
  {
    match e
    case Read(adapter, clock) => s.(attempts := s.attempts[adapter := HasRead(clock, s.last, |s.issued|)])
    case Exchange(adapter) =>
      var a := AttemptOf(s, adapter);
      if Succeeds(s, adapter) then
        var instance := Candidate(a.clock, a.previous);
        State(instance, s.attempts[adapter := Outside], s.issued + [instance])
      else s.(attempts := s.attempts[adapter := HasRead(a.clock, s.last, |s.issued|)])
  }

  predicate Runs(s: State, es: seq<Event>)
    decreases |es|
  {
    es == [] || (Enabled(s, es[0]) && Runs(Next(s, es[0]), es[1..]))
  }

  function After(s: State, es: seq<Event>): State
    requires Runs(s, es)
    decreases |es|
  {
    if es == [] then s else After(Next(s, es[0]), es[1..])
  }

  const BOOT := State(0, map[], [])

  /** The counter had the value n ids before. */
  function LastAt(issued: seq<Long64>, n: nat): Long64
    requires n <= |issued|
  {
    if n == 0 then 0 else issued[n - 1]
  }

  ghost predicate Inv(s: State) {
    && s.last == LastAt(s.issued, |s.issued|)
    && (forall i, j :: 0 <= i < j <= |s.issued| ==> LastAt(s.issued, i) < LastAt(s.issued, j))
    && (forall adapter :: adapter in s.attempts && s.attempts[adapter].HasRead? ==>
          var a := s.attempts[adapter]; a.commits <= |s.issued| && a.previous == LastAt(s.issued, a.commits))
  }

  /** No exchange succeeds on a full counter. */
  predicate NotFull(s: State, e: Event)
    requires Enabled(s, e)
  {
    e.Exchange? && Succeeds(s, e.adapter) ==> s.last < MAX64
  }

  predicate NeverFull(s: State, es: seq<Event>)
    requires Runs(s, es)
    decreases |es|
  {
    es == [] || (NotFull(s, es[0]) && NeverFull(Next(s, es[0]), es[1..]))
  }

  lemma StepKeeps(s: State, e: Event)
    requires Inv(s) && Enabled(s, e) && NotFull(s, e)
    ensures Inv(Next(s, e))
  {
    var t := Next(s, e);
    if e.Exchange? && Succeeds(s, e.adapter) {
      CandidateRises(AttemptOf(s, e.adapter).clock, s.last);
      assert forall n :: 0 <= n <= |s.issued| ==> LastAt(t.issued, n) == LastAt(s.issued, n) <= s.last;
      forall i, j | 0 <= i < j <= |t.issued| ensures LastAt(t.issued, i) < LastAt(t.issued, j) {
        assert LastAt(t.issued, i) == LastAt(s.issued, i);
      }
    }
  }

  lemma {:induction false} RunKeeps(s: State, es: seq<Event>)
    requires Inv(s) && Runs(s, es) && NeverFull(s, es)
    ensures Inv(After(s, es))
    decreases |es|
  {
    if es != [] {
      StepKeeps(s, es[0]);
      RunKeeps(Next(s, es[0]), es[1..]);
    }
  }

  /** No id is given out twice, and each is above the ones before it. */
  predicate Rising(issued: seq<Long64>) {
    && (forall i :: 0 <= i < |issued| ==> issued[i] > 0)
    && (forall i, j :: 0 <= i < j < |issued| ==> issued[i] < issued[j])
  }

  lemma KeptRises(s: State)
    requires Inv(s)
    ensures Rising(s.issued)
  {
    forall i | 0 <= i < |s.issued| ensures s.issued[i] > 0 {
      assert LastAt(s.issued, 0) < LastAt(s.issued, i + 1);
    }
    forall i, j | 0 <= i < j < |s.issued| ensures s.issued[i] < s.issued[j] {
      assert LastAt(s.issued, i + 1) < LastAt(s.issued, j + 1);
    }
  }

  lemma {:induction false} IssuedGrows(s: State, es: seq<Event>)
    requires Runs(s, es)
    ensures s.issued <= After(s, es).issued
    decreases |es|
  {
    if es != [] { IssuedGrows(Next(s, es[0]), es[1..]); }
  }

  /** A success on a full counter hands out the least 64-bit value, for good. */
  lemma {:induction false} FullRuns(s: State, es: seq<Event>)
    requires Inv(s) && Runs(s, es) && !NeverFull(s, es)
    ensures -MAX64 - 1 in After(s, es).issued
    decreases |es|
  {
    var t := Next(s, es[0]);
    if NotFull(s, es[0]) {
      StepKeeps(s, es[0]);
      FullRuns(t, es[1..]);
    } else {
      IssuedGrows(t, es[1..]);
      assert t.issued[|s.issued|] == -MAX64 - 1;
    }
  }

  /** Whatever the clocks, equal or running backwards, and however the loops interleave:
      the ids given out are positive, never repeated and increasing exactly in the runs in
      which no exchange succeeds on a full counter. */
  lemma InstancesUnique(es: seq<Event>)
    requires Runs(BOOT, es)
    ensures Rising(After(BOOT, es).issued) <==> NeverFull(BOOT, es)
  {
    if NeverFull(BOOT, es) {
      RunKeeps(BOOT, es);
      KeptRises(After(BOOT, es));
    } else {
      FullRuns(BOOT, es);
    }
  }

  /** Lock freedom without ABA: an exchange fails exactly when some other adapter has been
      given an id since the counter was read. */
  lemma ExchangeFailsIffOvertaken(s: State, adapter: nat)
    requires Inv(s) && AttemptOf(s, adapter).HasRead?
    ensures Succeeds(s, adapter) <==> AttemptOf(s, adapter).commits == |s.issued|
  {
  }

  function Allocation(adapter: nat, clock: Long64): seq<Event> {
    [Read(adapter, clock), Exchange(adapter)]
  }

  /** An allocation that nobody interferes with succeeds. */
  lemma OneAllocation(s: State, adapter: nat, clock: Long64, es: seq<Event>)
    requires AttemptOf(s, adapter).Outside?
    requires Runs(Next(Next(s, Read(adapter, clock)), Exchange(adapter)), es)
    ensures Runs(s, Allocation(adapter, clock) + es)
    ensures After(s, Allocation(adapter, clock) + es)
         == After(Next(Next(s, Read(adapter, clock)), Exchange(adapter)), es)
    ensures var t := Next(Next(s, Read(adapter, clock)), Exchange(adapter));
            t.last == Candidate(clock, s.last) && t.issued == s.issued + [t.last]
  {
    var fs := Allocation(adapter, clock) + es;
    assert fs[0] == Read(adapter, clock) && fs[1..][0] == Exchange(adapter) && fs[1..][1..] == es;
  }

  /** The promise does break: with the clock at its end the second adapter, whatever its
      clock, gets a negative id, and a third gets the id of the first again. */
  lemma FullCounterWraps(clock: Long64)
    ensures var es := Allocation(0, MAX64) + Allocation(1, clock) + Allocation(2, MAX64);
            && Runs(BOOT, es) && After(BOOT, es).issued == [MAX64, -MAX64 - 1, MAX64]
            && !NeverFull(BOOT, es)
  {
    var es := Allocation(0, MAX64) + Allocation(1, clock) + Allocation(2, MAX64);
    var a := Next(Next(BOOT, es[0]), es[1]);
    var b := Next(Next(a, es[2]), es[3]);
    assert a.last == MAX64 && b.last == -MAX64 - 1;
    OneAllocation(b, 2, MAX64, []);
    assert es[4..] == Allocation(2, MAX64) + [];
    OneAllocation(a, 1, clock, es[4..]);
    assert es[2..] == Allocation(1, clock) + es[4..];
    OneAllocation(BOOT, 0, MAX64, es[2..]);
    assert es == Allocation(0, MAX64) + es[2..];
    assert After(BOOT, es).issued[1] < 0;
    InstancesUnique(es);
  }

  // ------------------------------------------------------------ The loop in place

  class Counter {
    var last: Long64

    constructor ()
      ensures last == 0
    {
      last := 0;
    }

    /** InterlockedCompareExchange64: the value found; it is replaced when it is the expected one. */
    method CompareExchange(value: Long64, expected: Long64) returns (found: Long64)
      modifies this
      ensures found == old(last) && last == if found == expected then value else found
    {
      found := last;
      if found == expected { last := value; }
    }
  }

  /** The ids the other adapters take, one after the other. */
  function Taken(last: Long64, clocks: seq<Long64>): Long64
    decreases |clocks|
  {
    if clocks == [] then last else Taken(Candidate(clocks[0], last), clocks[1..])
  }

  /** The loop of AdapterContext::Initialize: before attempt k others may take ids with the
      clocks `others[k]`. The id is what the last attempt computed from the counter it found,
      and the counter holds it. */
  method AllocateInstance(counter: Counter, clock: Long64, others: seq<seq<Long64>>)
    returns (instance: Long64, ghost base: Long64)
    modifies counter
    ensures instance == counter.last == Candidate(clock, base)
    ensures exists k :: 0 <= k <= |others| && base == Taken(old(counter.last), Flat(others, k))
  {
    var k := 0;
    ghost var first := counter.last;
    assert Flat(others, 0) == [];
    while true
      invariant 0 <= k <= |others| && counter.last == Taken(first, Flat(others, k))
      decreases |others| - k
    {
      var previous := counter.last;
      base := previous;
      instance := Candidate(clock, previous);
      if k < |others| {
        Interfere(counter, others[k]);
        TakenFlat(first, others, k);
      }
      var found := counter.CompareExchange(instance, previous);
      if found == previous {
        return;
      }
      k := k + 1;
    }
  }

  /** The clocks of the first k bursts. */
  function Flat(others: seq<seq<Long64>>, k: nat): seq<Long64>
    requires k <= |others|
  {
    if k == 0 then [] else Flat(others, k - 1) + others[k - 1]
  }

  lemma {:induction false} TakenConcat(last: Long64, a: seq<Long64>, b: seq<Long64>)
    ensures Taken(last, a + b) == Taken(Taken(last, a), b)
    decreases |a|
  {
    if a == [] {
      assert a + b == b;
    } else {
      assert (a + b)[1..] == a[1..] + b;
      TakenConcat(Candidate(a[0], last), a[1..], b);
    }
  }

  lemma TakenFlat(last: Long64, others: seq<seq<Long64>>, k: nat)
    requires k < |others|
    ensures Taken(last, Flat(others, k + 1)) == Taken(Taken(last, Flat(others, k)), others[k])
  {
    TakenConcat(last, Flat(others, k), others[k]);
  }

  method Interfere(counter: Counter, clocks: seq<Long64>)
    modifies counter
    ensures counter.last == Taken(old(counter.last), clocks)
  {
    for index := 0 to |clocks|
      invariant Taken(counter.last, clocks[index..]) == Taken(old(counter.last), clocks)
    {
      counter.last := Candidate(clocks[index], counter.last);
      assert clocks[index..][1..] == clocks[index + 1..];
    }
  }
}
