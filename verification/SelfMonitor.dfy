// The self-monitoring collector of the job server (src/jalibs/jaself.c): tick
// counters of 16 bits per process and state, sampled into a ring of 60 slots.
module SelfMonitor {

  const MAX_HISTORY := 60
  const STATES := 2        // idle and busy
  const BUSY := 1
  const WRAP := 0x1_0000   // unsigned short

  // An array with an entry per process state.
  type PerState = s: seq<nat> | |s| == STATES witness [0, 0]

  // One sample of a process: a value per state.
  datatype Sample = Sample(idle: nat, busy: nat)

  function Of(s: Sample, state: nat): nat { if state == 0 then s.idle else s.busy }

  function Total(s: Sample): nat { (s.idle + s.busy) % WRAP }

  function Add(s: Sample, state: nat, ticks: nat): Sample
  {
    if state == 0 then s.(idle := (s.idle + ticks) % WRAP) else s.(busy := (s.busy + ticks) % WRAP)
  }

  // The ring slot of the k-th sample kept, oldest first.
  function Slot(first: nat, k: nat): (slot: nat)
    ensures first < 60 && k <= 60 ==> slot == (first + k) % 60
  {
    if first + k < MAX_HISTORY then first + k else first + k - MAX_HISTORY
  }

  function Kept(n: nat): nat { if n < MAX_HISTORY then n else MAX_HISTORY }

  function Max(a: int, b: int): int { if a > b then a else b }

  lemma AddTotal(s: Sample, state: nat, ticks: nat)
    ensures Total(Add(s, state, ticks)) == (s.idle + s.busy + ticks) % WRAP
  {
  }

  lemma WrapAdd(a: nat, b: nat, c: nat)
    requires a % WRAP == b % WRAP
    ensures (a + c) % WRAP == (b + c) % WRAP
  {
  }

  // A column of the ring holds the latest values of a state, oldest at first.
  ghost predicate InOrder(column: seq<nat>, first: nat, samples: seq<Sample>, state: nat)
  {
    && |column| == MAX_HISTORY && first < MAX_HISTORY
    && forall k :: 0 <= k < Kept(|samples|) ==> column[Slot(first, k)] == Of(samples[|samples| - Kept(|samples|) + k], state)
  }

  // Where first stands after one more sample.
  function Advanced(first: nat, n: nat): nat { if n < MAX_HISTORY then first else Slot(first, 1) }

  // Overwriting the slot after the newest value keeps a column in order.
  lemma RingAdvances(column: seq<nat>, first: nat, samples: seq<Sample>, reading: Sample, state: nat)
    requires InOrder(column, first, samples, state) && (|samples| < MAX_HISTORY ==> first == 0)
    ensures var index := Slot(first, Kept(|samples|));
      InOrder(column[index := Of(reading, state)], Advanced(first, |samples|), samples + [reading], state)
  {
    var n, now, more := |samples|, Advanced(first, |samples|), samples + [reading];
    var index := Slot(first, Kept(n));
    forall k | 0 <= k < Kept(n + 1)
      ensures column[index := Of(reading, state)][Slot(now, k)] == Of(more[n + 1 - Kept(n + 1) + k], state)
    {
      if n < MAX_HISTORY {
        assert k < n ==> column[Slot(first, k)] == Of(samples[k], state);
      } else if k < MAX_HISTORY - 1 {
        assert Slot(now, k) == Slot(first, k + 1) != index;
        assert column[Slot(first, k + 1)] == Of(samples[n - MAX_HISTORY + (k + 1)], state);
      }
    }
  }

  class StatProcess {
    const hCounter: array2<nat>
    var counter: PerState
    var lastTicks: int
    var lastState: nat

    ghost const start: int          // ticks at initialisation
    ghost var gained: nat           // sum of the positive advances of lastTicks
    ghost var steady: bool          // lastTicks never went back
    ghost var samples: seq<Sample>  // everything ever sampled

    ghost predicate Valid()
      reads this
    {
      && hCounter.Length0 == STATES && hCounter.Length1 == MAX_HISTORY
      && lastState < STATES
      && counter[0] < WRAP && counter[1] < WRAP
      && Total(Counters()) == gained % WRAP
      && (if steady then gained == lastTicks - start else gained > lastTicks - start)
    }

    function Counters(): Sample
      reads this
    {
      Sample(counter[0], counter[1])
    }

    // What a sample taken at the given time holds.
    function Reading(ticks: int): Sample
      reads this
    {
      if ticks > lastTicks then Add(Counters(), lastState, ticks - lastTicks) else Counters()
    }

    function Column(state: nat): (c: seq<nat>)
      reads hCounter
      requires hCounter.Length0 == STATES && hCounter.Length1 == MAX_HISTORY && state < STATES
      ensures |c| == MAX_HISTORY && forall i :: 0 <= i < MAX_HISTORY ==> c[i] == hCounter[state, i]
    {
      seq(MAX_HISTORY, i requires 0 <= i < MAX_HISTORY reads hCounter => hCounter[state, i])
    }

    // The samples kept are the latest, in order from the slot first.
    ghost predicate Ring(first: nat)
      reads this, hCounter
    {
      && hCounter.Length0 == STATES && hCounter.Length1 == MAX_HISTORY
      && InOrder(Column(0), first, samples, 0) && InOrder(Column(1), first, samples, 1)
    }

    // Consistent after n collections whose oldest kept sample is in slot first.
    ghost predicate After(n: nat, first: nat)
      reads this, hCounter
    {
      Valid() && |samples| == n && Ring(first)
    }

    constructor (ticks: int)
      ensures Valid() && fresh(hCounter)
      ensures start == ticks && steady && lastTicks == ticks && lastState == BUSY
      ensures samples == [] && Ring(0) && Counters() == Sample(0, 0)
    {
      hCounter := new nat[STATES, MAX_HISTORY]((_, _) => 0);
      counter := [0, 0];
      lastTicks, lastState := ticks, BUSY;
      start, gained, steady, samples := ticks, 0, true, [];
    }

    // ja_update_selfmon_counter, for the process that calls it.
    method Update(ticks: int, state: nat)
      requires Valid() && state < STATES
      modifies this`lastTicks, this`lastState, this`gained, this`steady, this`counter
      ensures Valid() && lastTicks == ticks && lastState == state
      ensures Counters() == old(Reading(ticks))
      ensures forall s :: 0 <= s < STATES ==>
        counter[s] == if s == old(lastState) && ticks > old(lastTicks) then (old(counter)[s] + (ticks - old(lastTicks))) % 65536
                      else old(counter)[s]
      ensures steady <==> old(steady) && ticks >= old(lastTicks)
    {
      if ticks > lastTicks {
        AddTotal(Counters(), lastState, ticks - lastTicks);
        WrapAdd(counter[0] + counter[1], gained, ticks - lastTicks);
        counter := counter[lastState := (counter[lastState] + ticks - lastTicks) % WRAP];
        gained := gained + (ticks - lastTicks);
      }
      steady := steady && ticks >= lastTicks;
      lastTicks := ticks;
      lastState := state;
    }

    // In every sample the states add up, modulo 65536, to the time since
    // initialisation, counted to the later of the sample and the last update,
    // for as long as the clock of the updates does not go back.
    lemma Conservation(ticks: int)
      requires Valid()
      ensures steady ==> Total(Reading(ticks)) == (Max(ticks, lastTicks) - start) % WRAP
      ensures Total(Reading(ticks)) == (gained + Max(ticks - lastTicks, 0)) % WRAP
    {
      if ticks > lastTicks {
        AddTotal(Counters(), lastState, ticks - lastTicks);
        WrapAdd(counter[0] + counter[1], gained, ticks - lastTicks);
      }
    }

    method Store(ticks: int, index: nat)
      requires Valid() && index < MAX_HISTORY
      modifies hCounter
      ensures forall s :: 0 <= s < STATES ==> hCounter[s, index] == Of(Reading(ticks), s)
      ensures forall s, i :: 0 <= s < STATES && 0 <= i < MAX_HISTORY && i != index ==> hCounter[s, i] == old(hCounter[s, i])
    {
      var state := 0;
      while state < STATES
        invariant 0 <= state <= STATES
        invariant forall s :: 0 <= s < state ==> hCounter[s, index] == counter[s]
        invariant forall s, i :: 0 <= s < STATES && 0 <= i < MAX_HISTORY && i != index ==> hCounter[s, i] == old(hCounter[s, i])
      {
        hCounter[state, index] := counter[state];
        state := state + 1;
      }
      if ticks > lastTicks {
        hCounter[lastState, index] := (hCounter[lastState, index] + ticks - lastTicks) % WRAP;
      }
    }

    // The body of the collecting loop: sample this process into a slot.
    method Record(ghost first: nat, ticks: int, index: nat)
      requires After(|samples|, first)
      requires index == Slot(first, Kept(|samples|)) && (|samples| < MAX_HISTORY ==> first == 0)
      modifies this`samples, hCounter
      ensures samples == old(samples) + [old(Reading(ticks))]
      ensures samples[|old(samples)|] == if lastState == 0 && ticks > lastTicks
        then Sample((counter[0] + (ticks - lastTicks)) % 65536, counter[1])
        else if ticks > lastTicks then Sample(counter[0], (counter[1] + (ticks - lastTicks)) % 65536)
        else Sample(counter[0], counter[1])
      ensures After(|samples|, Advanced(first, |old(samples)|))
    {
      ghost var reading := Reading(ticks);
      RingAdvances(Column(0), first, samples, reading, 0);
      RingAdvances(Column(1), first, samples, reading, 1);
      Store(ticks, index);
      assert Column(0) == old(Column(0))[index := Of(reading, 0)];
      assert Column(1) == old(Column(1))[index := Of(reading, 1)];
      samples := samples + [reading];
    }
  }

  class Collector {
    const process: seq<StatProcess>
    var first: nat
    var count: nat

    ghost var n: nat  // collections so far

    ghost const rings: set<array2<nat>>  // the sample arrays of the processes

    ghost predicate Separate()
    {
      && (forall i, j :: 0 <= i < j < |process| ==> process[i] != process[j] && process[i].hCounter != process[j].hCounter)
      && (forall i :: 0 <= i < |process| ==> process[i].hCounter in rings)
    }

    ghost predicate Valid()
      reads this, process, rings
    {
      && Separate()
      && first < MAX_HISTORY && count == Kept(n) && (n < MAX_HISTORY ==> first == 0)
      && (forall i :: 0 <= i < |process| ==> process[i].After(n, first))
    }

    // ja_init_selfmon_collector, over processes just set up.
    constructor (process: seq<StatProcess>)
      requires forall i, j :: 0 <= i < j < |process| ==> process[i] != process[j] && process[i].hCounter != process[j].hCounter
      requires forall i :: 0 <= i < |process| ==> process[i].After(0, 0)
      ensures Valid() && n == 0 && this.process == process
    {
      this.process := process;
      first, count, n := 0, 0, 0;
      rings := set i | 0 <= i < |process| :: process[i].hCounter;
    }

    // The collecting loop.
    method SampleAll(ghost n: nat, ghost first: nat, ticks: int, index: nat)
      requires Separate() && forall i :: 0 <= i < |process| ==> process[i].After(n, first)
      requires index == Slot(first, Kept(n)) && (n < MAX_HISTORY ==> first == 0)
      modifies process`samples
      modifies rings
      ensures forall i :: 0 <= i < |process| ==> process[i].After(n + 1, Advanced(first, n))
      ensures forall i :: 0 <= i < |process| ==>
                process[i].samples == old(process[i].samples) + [old(process[i].Reading(ticks))]
    {
      for i := 0 to |process|
        invariant forall j :: 0 <= j < i ==> process[j].After(n + 1, Advanced(first, n))
        invariant forall j :: 0 <= j < i ==> process[j].samples == old(process[j].samples) + [old(process[j].Reading(ticks))]
        invariant forall j :: i <= j < |process| ==> process[j].After(n, first)
        invariant forall j :: i <= j < |process| ==> process[j].samples == old(process[j].samples)
      {
        assert process[i].Reading(ticks) == old(process[i].Reading(ticks));
        assert forall j :: 0 <= j < |process| && j != i ==>
          process[j] != process[i] && process[j].hCounter != process[i].hCounter;
        process[i].Record(first, ticks, index);
      }
    }

    // ja_collect_selfmon_stats: every process is sampled once, into the ring.
    method Collect(ticks: int)
      requires Valid()
      modifies this`first, this`count, this`n
      modifies process`samples
      modifies rings
      ensures Valid() && n == old(n) + 1
      ensures forall i :: 0 <= i < |process| ==>
                process[i].samples == old(process[i].samples) + [old(process[i].Reading(ticks))]
    {
      var index := first + count;
      if MAX_HISTORY <= index {
        index := index - MAX_HISTORY;
      }
      if count < MAX_HISTORY {
        count := count + 1;
      } else {
        first := first + 1;
        if first == MAX_HISTORY {
          first := 0;
        }
      }
      assert index == Slot(old(first), Kept(n)) && first == Advanced(old(first), n) && count == Kept(n + 1);
      SampleAll(n, old(first), ticks, index);
      n := n + 1;
    }
  }
}
