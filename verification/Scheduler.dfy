/** The full health check: one goroutine per node, throttled by two buffered channels used as semaphores.
    A state holds the two channels' fill levels and where each goroutine is; any interleaving is a run. */
module Scheduler {
  import opened Common
  import opened Nodes

  // ---------- configuration ----------

  const DEFAULT_WORKERS: int := 2
  const DEFAULT_CLI_WORKERS: int := 1

  function NormalizeWorkers(workers: int, cpus: nat): (w: nat)
    ensures 1 <= w <= 4 && (cpus >= 1 ==> w <= 2 * cpus)
    ensures workers >= 1 && cpus >= 1 ==> w == workers || (w < workers && (w == 4 || w == 2 * cpus))
    ensures (workers <= 0 && cpus >= 1 ==> w == 2) && (cpus == 0 ==> w == 1)
  {
    var wanted := if workers <= 0 then DEFAULT_WORKERS else workers;
    var most := if cpus * 2 > 4 then 4 else if cpus * 2 < 1 then 1 else cpus * 2;
    if wanted > most then most else wanted
  }

  function NormalizeCliWorkers(workers: int, overall: nat): (w: nat)
    ensures 1 <= w && (overall >= 1 ==> w <= overall)
    ensures 1 <= workers <= overall ==> w == workers
    ensures (workers <= 0 ==> w == 1) && (workers > overall >= 1 ==> w == overall)
  {
    var wanted := if workers <= 0 then DEFAULT_CLI_WORKERS else workers;
    var capped := if wanted > overall then overall else wanted;
    if capped < 1 then 1 else capped
  }

  // ---------- the protocol ----------

  /** How the channels are made: `semAll` holds `workers` tokens; CLI checks have a channel of their own
      only if they are limited more tightly than the rest. */
  datatype Config = Config(workers: nat, cliWorkers: nat)

  predicate TwoLevels(c: Config) {
    0 < c.cliWorkers < c.workers
  }

  /** What a goroutine does on its way out, whether its check returned or panicked: give back its token for all
      checks, give back its CLI token, stop a panic, count itself off. */
  datatype Deferred = GiveBack | GiveBackCli | Recover | CountOff

  /** Where a goroutine is: before its first send, between its sends, inside the check, or on its way out with the
      deferred calls still to be made. A panic that meets no more deferred calls ends the process. */
  datatype Place = Waiting | HoldingCli | Checking | Leaving(panicking: bool, calls: seq<Deferred>)

  /** The fill of the two channels, the counter that the scheduler waits on, where each goroutine is, and whose panic
      was recovered. */
  datatype State = State(semAll: nat, semCli: nat, running: int, places: seq<Place>, recovered: set<nat>)

  function Initial(n: nat): State {
    State(0, 0, n, seq(n, _ => Waiting), {})
  }

  predicate TakesBoth(c: Config, cli: seq<bool>, i: nat)
    requires i < |cli|
  {
    TwoLevels(c) && cli[i]
  }

  /** The calls goroutine `i` has deferred when its check starts, the last deferred first. */
  function Defers(c: Config, cli: seq<bool>, i: nat): seq<Deferred>
    requires i < |cli|
  {
    if TakesBoth(c, cli, i) then [GiveBack, GiveBackCli, Recover, CountOff] else [GiveBack, Recover, CountOff]
  }

  predicate IsDone(p: Place) {
    p.Leaving? && p.calls == []
  }

  /** Goroutine `i` can take its next step: a send needs room in the channel, a receive needs a token. */
  predicate CanStep(c: Config, cli: seq<bool>, s: State, i: nat)
    requires |cli| == |s.places|
  {
    i < |s.places| &&
    match s.places[i]
    case Waiting => if TakesBoth(c, cli, i) then s.semCli < c.cliWorkers else s.semAll < c.workers
    case HoldingCli => s.semAll < c.workers
    case Checking => true
    case Leaving(_, calls) =>
      calls != [] && (calls[0].GiveBack? ==> s.semAll > 0) && (calls[0].GiveBackCli? ==> s.semCli > 0)
  }

  /** The step of goroutine `i`; `panics` tells how its check ends, if this step ends it. */
  function Step(c: Config, cli: seq<bool>, s: State, i: nat, panics: bool): State
    requires |cli| == |s.places| && CanStep(c, cli, s, i)
  {
    match s.places[i]
    case Waiting =>
      if TakesBoth(c, cli, i) then s.(semCli := s.semCli + 1, places := s.places[i := HoldingCli])
      else s.(semAll := s.semAll + 1, places := s.places[i := Checking])
    case HoldingCli => s.(semAll := s.semAll + 1, places := s.places[i := Checking])
    case Checking => s.(places := s.places[i := Leaving(panics, Defers(c, cli, i))])
    case Leaving(panicking, calls) =>
      match calls[0]
      case GiveBack => s.(semAll := s.semAll - 1, places := s.places[i := Leaving(panicking, calls[1..])])
      case GiveBackCli => s.(semCli := s.semCli - 1, places := s.places[i := Leaving(panicking, calls[1..])])
      case Recover =>
        s.(recovered := if panicking then s.recovered + {i} else s.recovered,
           places := s.places[i := Leaving(false, calls[1..])])
      case CountOff => s.(running := s.running - 1, places := s.places[i := Leaving(panicking, calls[1..])])
  }

  /** A goroutine whose check is no CLI check, and every goroutine if there is one level of limits only, needs a token
      of the first channel and nothing else; the second channel does not concern it. */
  lemma OneTokenToRun(c: Config, cli: seq<bool>, s: State, i: nat, panics: bool)
    requires |cli| == |s.places| && i < |cli| && (!cli[i] || c.cliWorkers == 0 || c.workers <= c.cliWorkers)
    ensures s.places[i].Waiting? ==> (CanStep(c, cli, s, i) <==> s.semAll < c.workers)
    ensures s.places[i].Waiting? && s.semAll < c.workers ==>
              Step(c, cli, s, i, panics) == s.(semAll := s.semAll + 1, places := s.places[i := Checking])
    ensures CanStep(c, cli, s, i) && PlaceSound(c, cli, i, s.places[i]) ==>
              Step(c, cli, s, i, panics).semCli == s.semCli
  {
    if s.places[i].Leaving? && s.places[i].calls != [] && PlaceSound(c, cli, i, s.places[i]) {
      NextCall(c, cli, i, s.places[i]);
      assert s.places[i].calls[0] in s.places[i].calls;
    }
  }

  /** A CLI check that is limited more tightly needs a token of the second channel first and then one of the first. */
  lemma TwoTokensToRun(c: Config, cli: seq<bool>, s: State, i: nat, panics: bool)
    requires |cli| == |s.places| && i < |cli| && cli[i] && 0 < c.cliWorkers < c.workers
    ensures s.places[i].Waiting? ==> (CanStep(c, cli, s, i) <==> s.semCli < c.cliWorkers)
    ensures s.places[i].Waiting? && s.semCli < c.cliWorkers ==>
              Step(c, cli, s, i, panics) == s.(semCli := s.semCli + 1, places := s.places[i := HoldingCli])
    ensures s.places[i].HoldingCli? ==> (CanStep(c, cli, s, i) <==> s.semAll < c.workers)
    ensures s.places[i].HoldingCli? && s.semAll < c.workers ==>
              Step(c, cli, s, i, panics) == s.(semAll := s.semAll + 1, places := s.places[i := Checking])
  {
  }

  // ---------- what every run keeps ----------

  /** The checks going on. */
  function Running(s: State): set<nat> {
    set i | 0 <= i < |s.places| && s.places[i].Checking?
  }

  function RunningCli(cli: seq<bool>, s: State): set<nat>
    requires |cli| == |s.places|
  {
    set i | 0 <= i < |s.places| && s.places[i].Checking? && cli[i]
  }

  /** What a goroutine at some place owes: a token of the first channel, one of the second, its count. */
  predicate Holds(p: Place) {
    p.Checking? || (p.Leaving? && GiveBack in p.calls)
  }

  predicate HoldsCli(c: Config, cli: seq<bool>, i: nat, p: Place)
    requires i < |cli|
  {
    TakesBoth(c, cli, i) && (p.HoldingCli? || p.Checking? || (p.Leaving? && GiveBackCli in p.calls))
  }

  predicate Counts(p: Place) {
    p.Leaving? ==> CountOff in p.calls
  }

  function Holders(s: State): set<nat> {
    set i | 0 <= i < |s.places| && Holds(s.places[i])
  }

  function CliHolders(c: Config, cli: seq<bool>, s: State): set<nat>
    requires |cli| == |s.places|
  {
    set i | 0 <= i < |s.places| && HoldsCli(c, cli, i, s.places[i])
  }

  function Counting(s: State): set<nat> {
    set i | 0 <= i < |s.places| && Counts(s.places[i])
  }

  /** On its way out a goroutine has some last part of its deferred calls left, and a panic a recovery ahead of it. */
  predicate PlaceSound(c: Config, cli: seq<bool>, i: nat, p: Place)
    requires i < |cli|
  {
    match p
    case Waiting => true
    case HoldingCli => TakesBoth(c, cli, i)
    case Checking => true
    case Leaving(panicking, calls) =>
      && (calls == Defers(c, cli, i) || (TakesBoth(c, cli, i) && calls == [GiveBackCli, Recover, CountOff])
          || calls == [Recover, CountOff] || calls == [CountOff] || calls == [])
      && (panicking ==> Recover in calls)
  }

  /** Every deferred call is made once. */
  lemma NextCall(c: Config, cli: seq<bool>, i: nat, p: Place)
    requires i < |cli| && PlaceSound(c, cli, i, p) && p.Leaving? && p.calls != []
    ensures PlaceSound(c, cli, i, Leaving(p.panicking && !p.calls[0].Recover?, p.calls[1..]))
    ensures forall d :: d in p.calls <==> d == p.calls[0] || d in p.calls[1..]
    ensures p.calls[0] !in p.calls[1..] && (TakesBoth(c, cli, i) || GiveBackCli !in p.calls)
    ensures p.calls[0].CountOff? ==> !p.panicking
  {
    var rest := p.calls[1..];
    assert rest == [GiveBackCli, Recover, CountOff] || rest == [Recover, CountOff] || rest == [CountOff] || rest == [];
  }

  /** The tokens in each channel, and the count, are the goroutines that owe them. */
  ghost predicate Sound(c: Config, cli: seq<bool>, s: State) {
    && |cli| == |s.places| && c.workers >= 1
    && s.semAll == |Holders(s)| <= c.workers
    && s.semCli == |CliHolders(c, cli, s)| && (TwoLevels(c) ==> s.semCli <= c.cliWorkers)
    && s.running == |Counting(s)|
    && forall i :: 0 <= i < |s.places| ==> PlaceSound(c, cli, i, s.places[i])
  }

  lemma InitialIsSound(c: Config, cli: seq<bool>)
    requires c.workers >= 1
    ensures Sound(c, cli, Initial(|cli|))
  {
    var s := Initial(|cli|);
    assert Holders(s) == {} && CliHolders(c, cli, s) == {};
    AllCount(|cli|);
  }

  lemma {:induction false} AllCount(n: nat)
    ensures |Counting(Initial(n))| == n
  {
    if n == 0 {
      assert Counting(Initial(n)) == {};
    } else {
      AllCount(n - 1);
      assert Counting(Initial(n)) == Counting(Initial(n - 1)) + {n - 1};
    }
  }

  /** Two sets that differ in `i` at most. */
  lemma OneElement(a: set<nat>, b: set<nat>, i: nat)
    requires forall k :: k != i ==> (k in a <==> k in b)
    ensures |b| == |a| + (if i in b then 1 else 0) - (if i in a then 1 else 0)
  {
    var rest := a - {i};
    assert a == if i in a then rest + {i} else rest;
    assert b == if i in b then rest + {i} else rest;
  }

  lemma HoldersAfter(s: State, t: State, i: nat, q: Place)
    requires i < |s.places| && t.places == s.places[i := q]
    ensures |Holders(t)| == |Holders(s)| + (if Holds(q) then 1 else 0) - (if Holds(s.places[i]) then 1 else 0)
  {
    hide Holds;
    assert forall k :: k != i ==> (k in Holders(s) <==> k in Holders(t));
    OneElement(Holders(s), Holders(t), i);
  }

  lemma CliHoldersAfter(c: Config, cli: seq<bool>, s: State, t: State, i: nat, q: Place)
    requires |cli| == |s.places| && i < |s.places| && t.places == s.places[i := q]
    ensures |CliHolders(c, cli, t)| ==
             |CliHolders(c, cli, s)| + (if HoldsCli(c, cli, i, q) then 1 else 0)
            - (if HoldsCli(c, cli, i, s.places[i]) then 1 else 0)
  {
    hide HoldsCli, TakesBoth;
    assert forall k :: k != i ==> (k in CliHolders(c, cli, s) <==> k in CliHolders(c, cli, t));
    OneElement(CliHolders(c, cli, s), CliHolders(c, cli, t), i);
  }

  lemma CountingAfter(s: State, t: State, i: nat, q: Place)
    requires i < |s.places| && t.places == s.places[i := q]
    ensures |Counting(t)| == |Counting(s)| + (if Counts(q) then 1 else 0) - (if Counts(s.places[i]) then 1 else 0)
  {
    hide Counts;
    assert forall k :: k != i ==> (k in Counting(s) <==> k in Counting(t));
    OneElement(Counting(s), Counting(t), i);
  }

  /** A step moves one goroutine and changes channels and count by what it owes afterwards and owed before. */
  lemma StepOwes(c: Config, cli: seq<bool>, s: State, i: nat, panics: bool)
    requires |cli| == |s.places| && CanStep(c, cli, s, i) && PlaceSound(c, cli, i, s.places[i])
    ensures var p, t := s.places[i], Step(c, cli, s, i, panics);
            && |t.places| == |s.places| && t.places == s.places[i := t.places[i]] && PlaceSound(c, cli, i, t.places[i])
            && var q := t.places[i];
            && t.semAll == s.semAll + (if Holds(q) then 1 else 0) - (if Holds(p) then 1 else 0)
            && t.semCli ==
               s.semCli + (if HoldsCli(c, cli, i, q) then 1 else 0) - (if HoldsCli(c, cli, i, p) then 1 else 0)
            && t.running == s.running + (if Counts(q) then 1 else 0) - (if Counts(p) then 1 else 0)
            && (t.semAll <= s.semAll || t.semAll <= c.workers)
            && (t.semCli <= s.semCli || t.semCli <= c.cliWorkers)
  {
    if s.places[i].Leaving? {
      hide Defers, PlaceSound;
      NextCall(c, cli, i, s.places[i]);
    }
  }

  lemma StepIsSound(c: Config, cli: seq<bool>, s: State, i: nat, panics: bool)
    requires Sound(c, cli, s) && CanStep(c, cli, s, i)
    ensures Sound(c, cli, Step(c, cli, s, i, panics))
  {
    hide Holders, CliHolders, Counting, Step, Holds, HoldsCli, Counts, PlaceSound, Defers;
    StepOwes(c, cli, s, i, panics);
    var t := Step(c, cli, s, i, panics);
    HoldersAfter(s, t, i, t.places[i]);
    CliHoldersAfter(c, cli, s, t, i, t.places[i]);
    CountingAfter(s, t, i, t.places[i]);
  }

  /** At most `workers` checks run at once, and at most `cliWorkers` of them are CLI checks. */
  lemma LimitsHold(c: Config, cli: seq<bool>, s: State)
    requires Sound(c, cli, s) && 1 <= c.cliWorkers <= c.workers
    ensures |Running(s)| <= c.workers && |RunningCli(cli, s)| <= c.cliWorkers
  {
    SubsetSize(Running(s), Holders(s));
    if TwoLevels(c) {
      SubsetSize(RunningCli(cli, s), CliHolders(c, cli, s));
    } else {
      SubsetSize(RunningCli(cli, s), Running(s));
    }
  }

  /** A goroutine whose check is over is never stuck on giving a token back. */
  lemma ReceivesNeverBlock(c: Config, cli: seq<bool>, s: State, i: nat)
    requires Sound(c, cli, s) && i < |s.places| && s.places[i].Leaving? && !IsDone(s.places[i])
    ensures CanStep(c, cli, s, i)
  {
    hide PlaceSound, Counting, Counts;
    assert PlaceSound(c, cli, i, s.places[i]);
    NextCall(c, cli, i, s.places[i]);
    if s.places[i].calls[0].GiveBack? {
      assert i in Holders(s);
    } else if s.places[i].calls[0].GiveBackCli? {
      assert i in CliHolders(c, cli, s);
    }
  }

  /** No goroutine has ended in a panic, which would end the process, and the scheduler waits exactly as long as some
      goroutine is not done. */
  predicate NothingEscaped(s: State) {
    && (forall i :: 0 <= i < |s.places| && IsDone(s.places[i]) ==> !s.places[i].panicking)
    && s.running >= 0 && (s.running == 0 <==> forall i :: 0 <= i < |s.places| ==> IsDone(s.places[i]))
  }

  lemma NoPanicEscapes(c: Config, cli: seq<bool>, s: State)
    requires Sound(c, cli, s)
    ensures NothingEscaped(s)
  {
    forall i | 0 <= i < |s.places|
      ensures IsDone(s.places[i]) <==> i !in Counting(s)
      ensures IsDone(s.places[i]) ==> !s.places[i].panicking
    {
      assert PlaceSound(c, cli, i, s.places[i]);
      LastCall(c, cli, i, s.places[i]);
    }
    assert Counting(s) == {} <==> forall i :: 0 <= i < |s.places| ==> IsDone(s.places[i]);
  }

  lemma LastCall(c: Config, cli: seq<bool>, i: nat, p: Place)
    requires i < |cli| && PlaceSound(c, cli, i, p)
    ensures IsDone(p) <==> !Counts(p)
  {
    if p.Leaving? && p.calls != [] {
      assert p.calls[|p.calls| - 1] == CountOff;
    }
  }

  /** Until every goroutine is done, one of them can step. */
  lemma SomeoneCanStep(c: Config, cli: seq<bool>, s: State, i: nat)
    requires Sound(c, cli, s) && c.cliWorkers >= 1 && i < |s.places| && !IsDone(s.places[i])
    ensures exists j: nat :: CanStep(c, cli, s, j)
  {
    if j: nat :| j < |s.places| && s.places[j].Leaving? && !IsDone(s.places[j]) {
      ReceivesNeverBlock(c, cli, s, j);
    } else if j: nat :| j < |s.places| && s.places[j].Checking? {
      assert CanStep(c, cli, s, j);
    } else {
      assert Holders(s) == {};
      if j: nat :| j < |s.places| && s.places[j].HoldingCli? {
        assert CanStep(c, cli, s, j);
      } else {
        assert CliHolders(c, cli, s) == {};
        assert CanStep(c, cli, s, i);
      }
    }
  }

  /** When every goroutine is done both channels are empty, however many checks panicked. */
  lemma EmptyWhenDone(c: Config, cli: seq<bool>, s: State)
    requires Sound(c, cli, s) && forall i :: 0 <= i < |s.places| ==> IsDone(s.places[i])
    ensures s.semAll == 0 && s.semCli == 0 && s.running == 0
  {
    assert Holders(s) == {} && CliHolders(c, cli, s) == {} && Counting(s) == {};
  }

  // ---------- termination ----------

  function Left(c: Config, cli: seq<bool>, s: State, i: nat): nat
    requires |cli| == |s.places| && i < |cli|
  {
    match s.places[i]
    case Waiting => |Defers(c, cli, i)| + if TakesBoth(c, cli, i) then 3 else 2
    case HoldingCli => |Defers(c, cli, i)| + 2
    case Checking => |Defers(c, cli, i)| + 1
    case Leaving(_, calls) => |calls|
  }

  /** The steps the first `n` goroutines still have to take. */
  function StepsLeft(c: Config, cli: seq<bool>, s: State, n: nat): nat
    requires |cli| == |s.places| && n <= |cli|
  {
    if n == 0 then 0 else StepsLeft(c, cli, s, n - 1) + Left(c, cli, s, n - 1)
  }

  lemma OneLess(c: Config, cli: seq<bool>, s: State, i: nat, panics: bool, j: nat)
    requires |cli| == |s.places| && CanStep(c, cli, s, i) && j < |cli|
    ensures Left(c, cli, Step(c, cli, s, i, panics), j) == Left(c, cli, s, j) - if i == j then 1 else 0
  {
  }

  lemma {:induction false} StepCounts(c: Config, cli: seq<bool>, s: State, i: nat, panics: bool, n: nat)
    requires |cli| == |s.places| && CanStep(c, cli, s, i) && n <= |cli|
    ensures StepsLeft(c, cli, Step(c, cli, s, i, panics), n) == StepsLeft(c, cli, s, n) - if i < n then 1 else 0
  {
    if n > 0 {
      StepCounts(c, cli, s, i, panics, n - 1);
      OneLess(c, cli, s, i, panics, n - 1);
    }
  }

  lemma {:induction false} NothingLeft(c: Config, cli: seq<bool>, s: State, n: nat)
    requires |cli| == |s.places| && n <= |cli|
    ensures StepsLeft(c, cli, s, n) == 0 <==> forall i :: 0 <= i < n ==> IsDone(s.places[i])
  {
    if n > 0 {
      NothingLeft(c, cli, s, n - 1);
    }
  }

  // ---------- runs ----------

  /** `to` follows `from` by one step of some goroutine. */
  ghost predicate Next(c: Config, cli: seq<bool>, from: State, to: State)
    requires |cli| == |from.places|
  {
    exists i: nat, panics: bool :: CanStep(c, cli, from, i) && to == Step(c, cli, from, i, panics)
  }

  ghost predicate IsRun(c: Config, cli: seq<bool>, run: seq<State>) {
    && run != [] && run[0] == Initial(|cli|)
    && (forall k :: 0 <= k < |run| ==> |run[k].places| == |cli|)
    && forall k :: 0 < k < |run| ==> Next(c, cli, run[k - 1], run[k])
  }

  /** In every run and at every moment the limits hold and no panic has escaped, each step is one of a number fixed in
      advance, and the run can only end, or stop making progress, with every check done, both channels empty and
      nobody left to wait for. */
  lemma {:induction false} EveryRun(c: Config, cli: seq<bool>, run: seq<State>)
    requires IsRun(c, cli, run) && 1 <= c.cliWorkers <= c.workers
    ensures forall k :: 0 <= k < |run| ==>
                          && Sound(c, cli, run[k]) && NothingEscaped(run[k])
                          && |Running(run[k])| <= c.workers && |RunningCli(cli, run[k])| <= c.cliWorkers
    ensures |run| - 1 + StepsLeft(c, cli, run[|run| - 1], |cli|) == StepsLeft(c, cli, Initial(|cli|), |cli|)
    ensures var last := run[|run| - 1];
            (forall i: nat :: !CanStep(c, cli, last, i)) <==> (forall i :: 0 <= i < |cli| ==> IsDone(last.places[i]))
    ensures var last := run[|run| - 1];
            (forall i: nat :: !CanStep(c, cli, last, i)) ==>
              && last.semAll == 0 && last.semCli == 0 && last.running == 0
              && |run| - 1 == StepsLeft(c, cli, Initial(|cli|), |cli|)
  {
    hide Sound, Running, RunningCli, Step, StepsLeft, NothingEscaped;
    var last := run[|run| - 1];
    if |run| == 1 {
      InitialIsSound(c, cli);
    } else {
      var before := run[..|run| - 1];
      assert IsRun(c, cli, before) && before[|before| - 1] == run[|run| - 2];
      EveryRun(c, cli, before);
      assert Next(c, cli, run[|run| - 2], last);
      var i: nat, panics: bool :| CanStep(c, cli, run[|run| - 2], i) && last == Step(c, cli, run[|run| - 2], i, panics);
      StepIsSound(c, cli, run[|run| - 2], i, panics);
      StepCounts(c, cli, run[|run| - 2], i, panics, |cli|);
      assert forall k :: 0 <= k < |before| ==> before[k] == run[k];
    }
    LimitsHold(c, cli, last);
    NoPanicEscapes(c, cli, last);
    LastOfRun(c, cli, last);
  }

  /** The moment at which the checks of `now` are going on and no other has begun. */
  function Started(c: Config, cli: seq<bool>, now: set<nat>): State {
    State(|now|, if 0 < c.cliWorkers < c.workers then |Clis(cli, now)| else 0, |cli|,
          seq(|cli|, i => if i in now then Checking else Waiting), {})
  }

  /** The CLI checks among those of `now`. */
  function Clis(cli: seq<bool>, now: set<nat>): set<nat> {
    set i | i in now && i < |cli| && cli[i]
  }

  lemma {:induction false} CanStart(c: Config, cli: seq<bool>, now: set<nat>) returns (run: seq<State>)
    requires 1 <= c.cliWorkers <= c.workers && forall i :: i in now ==> i < |cli|
    requires |now| <= c.workers && |Clis(cli, now)| <= c.cliWorkers
    ensures run != [] && IsRun(c, cli, run) && run[|run| - 1] == Started(c, cli, now)
    decreases |now|
  {
    hide IsRun, CanStep, Step;
    if now == {} {
      run := [Initial(|cli|)];
      RunStarts(c, cli);
      assert Clis(cli, now) == {};
      assert Initial(|cli|) == Started(c, cli, now);
    } else {
      var i :| i in now;
      var others := now - {i};
      OneElement(Clis(cli, now), Clis(cli, others), i);
      run := CanStart(c, cli, others);
      var s := run[|run| - 1];
      assert s == Started(c, cli, others);
      if !cli[i] || c.workers <= c.cliWorkers {
        OneTokenToRun(c, cli, s, i, false);
      } else {
        TwoTokensToRun(c, cli, s, i, false);
        RunExtends(c, cli, run, i, false);
        s := Step(c, cli, s, i, false);
        run := run + [s];
        TwoTokensToRun(c, cli, s, i, false);
      }
      RunExtends(c, cli, run, i, false);
      run := run + [Step(c, cli, s, i, false)];
      assert run[|run| - 1].places == Started(c, cli, now).places;
    }
  }

  /** The limits are exact: checks can be going on at once, with no others, exactly when they are no more than `workers`
      and the CLI checks among them no more than `cliWorkers`. */
  lemma RunTogetherIff(c: Config, cli: seq<bool>, now: set<nat>)
    requires 1 <= c.cliWorkers <= c.workers && forall i :: i in now ==> i < |cli|
    ensures (exists run :: IsRun(c, cli, run) && Running(run[|run| - 1]) == now) <==>
            |now| <= c.workers && |Clis(cli, now)| <= c.cliWorkers
  {
    if |now| <= c.workers && |Clis(cli, now)| <= c.cliWorkers {
      var run := CanStart(c, cli, now);
      assert Running(run[|run| - 1]) == now;
    }
    forall run | IsRun(c, cli, run) && Running(run[|run| - 1]) == now
      ensures |now| <= c.workers && |Clis(cli, now)| <= c.cliWorkers
    {
      EveryRun(c, cli, run);
      assert RunningCli(cli, run[|run| - 1]) == Clis(cli, now);
    }
  }

  lemma {:induction false} SomeOf(all: set<nat>, n: nat) returns (some: set<nat>)
    requires n <= |all|
    ensures some <= all && |some| == n
  {
    if n == |all| {
      some := all;
    } else {
      var i :| i in all;
      some := SomeOf(all - {i}, n);
    }
  }

  function Smaller(a: nat, b: nat): nat {
    if a < b then a else b
  }

  /** Both limits are reached if there is enough to do, the first of them with any kind of checks. */
  lemma LimitsAttained(c: Config, cli: seq<bool>, all: set<nat>)
    requires 1 <= c.cliWorkers <= c.workers && forall i :: i in all ==> i < |cli|
    ensures (forall i :: i in all ==> !cli[i]) ==>
              exists run :: IsRun(c, cli, run) && Running(run[|run| - 1]) <= all
                            && |Running(run[|run| - 1])| == Smaller(c.workers, |all|)
    ensures (forall i :: i in all ==> cli[i]) ==>
              exists run :: IsRun(c, cli, run) && RunningCli(cli, run[|run| - 1]) <= all
                            && |RunningCli(cli, run[|run| - 1])| == Smaller(c.cliWorkers, |all|)
  {
    if forall i :: i in all ==> !cli[i] {
      var some := SomeOf(all, Smaller(c.workers, |all|));
      assert Clis(cli, some) == {};
      var run := CanStart(c, cli, some);
      assert Running(run[|run| - 1]) == some;
    }
    if forall i :: i in all ==> cli[i] {
      var some := SomeOf(all, Smaller(c.cliWorkers, |all|));
      assert Clis(cli, some) == some;
      var run := CanStart(c, cli, some);
      assert RunningCli(cli, run[|run| - 1]) == some;
    }
  }

  lemma LastOfRun(c: Config, cli: seq<bool>, last: State)
    requires Sound(c, cli, last) && c.cliWorkers >= 1
    ensures (forall i: nat :: !CanStep(c, cli, last, i)) <==> (forall i :: 0 <= i < |cli| ==> IsDone(last.places[i]))
    ensures (forall i: nat :: !CanStep(c, cli, last, i)) ==>
              last.semAll == 0 && last.semCli == 0 && last.running == 0 && StepsLeft(c, cli, last, |cli|) == 0
  {
    NothingLeft(c, cli, last, |cli|);
    if i :| 0 <= i < |cli| && !IsDone(last.places[i]) {
      SomeoneCanStep(c, cli, last, i);
    } else {
      EmptyWhenDone(c, cli, last);
    }
  }

  // ---------- the full check ----------

  class HealthScheduler {
    const workers: nat
    const cliWorkers: nat

    constructor (workers: int, cliWorkers: int, cpus: nat)
      ensures 1 <= this.cliWorkers <= this.workers <= 4
      ensures this.workers == NormalizeWorkers(workers, cpus)
      ensures this.cliWorkers == NormalizeCliWorkers(cliWorkers, this.workers)
    {
      var w := NormalizeWorkers(workers, cpus);
      this.workers := w;
      this.cliWorkers := NormalizeCliWorkers(cliWorkers, w);
    }

    /** Appends the tasks of one account. */
    method AppendTasks(registry: Registry, r: Ref, skipDisabled: bool, before: seq<string>) returns (tasks: seq<string>)
      requires registry.Valid() && Registered(registry.accountById, registry.accountTable, r)
      requires Distinct(before) && forall i :: i in before ==> i !in registry.accountTable[r].nodes
      ensures Distinct(tasks)
      ensures forall i :: i in tasks <==>
                            i in before || (i in registry.accountTable[r].nodes && IsTask(registry, skipDisabled, i))
    {
      hide Consistent;
      registry.LookUpAccount(r);
      tasks := before;
      var todo := registry.accountTable[r].nodes.Keys;
      while todo != {}
        invariant todo <= registry.accountTable[r].nodes.Keys && Distinct(tasks)
        invariant forall i :: i in tasks <==>
                                i in before || (i in registry.accountTable[r].nodes - todo
                                  && IsTask(registry, skipDisabled, i))
        decreases |todo|
      {
        var i :| i in todo;
        todo := todo - {i};
        if !skipDisabled || !registry.nodeTable[registry.nodeIndex[i]].disabled {
          tasks := tasks + [i];
        }
      }
    }

    /** One task per node of a registered account, disabled ones left out if so configured. */
    method CollectTasks(registry: Registry, skipDisabled: bool) returns (tasks: seq<string>)
      requires registry.Valid()
      ensures Distinct(tasks)
      ensures forall i :: i in tasks <==>
                            i in registry.nodeIndex && registry.nodeIndex[i] in registry.nodeTable
                            && (skipDisabled ==> !registry.nodeTable[registry.nodeIndex[i]].disabled)
    {
      hide Consistent;
      tasks := [];
      var accounts := registry.accountById.Keys;
      EveryNodeIsOwned(registry);
      while accounts != {}
        invariant accounts <= registry.accountById.Keys && Distinct(tasks)
        invariant forall i :: i in tasks <==> IsTask(registry, skipDisabled, i) && OwnerId(registry, i) !in accounts
        decreases |accounts|
      {
        var id :| id in accounts;
        accounts := accounts - {id};
        tasks := AppendTasks(registry, registry.accountById[id], skipDisabled, tasks);
      }
    }

    /** The goroutines of one full check, in any order the channels allow; `panics` says which checks panic. */
    method CheckAllNodes(registry: Registry, skipDisabled: bool, isCli: string -> bool, panics: string -> bool)
      returns (tasks: seq<string>, s: State, ghost run: seq<State>)
      requires registry.Valid() && 1 <= cliWorkers <= workers
      ensures Distinct(tasks)
      ensures forall i :: i in tasks <==>
                            i in registry.nodeIndex && registry.nodeIndex[i] in registry.nodeTable
                            && (skipDisabled ==> !registry.nodeTable[registry.nodeIndex[i]].disabled)
      ensures var cli := seq(|tasks|, k requires 0 <= k < |tasks| => isCli(tasks[k]));
              IsRun(Config(workers, cliWorkers), cli, run) && run[|run| - 1] == s
      ensures (forall k :: 0 <= k < |tasks| ==> s.places[k] == Leaving(false, []))
      ensures s.semAll == 0 && s.semCli == 0 && s.running == 0
      ensures s.recovered == set k | 0 <= k < |tasks| && panics(tasks[k])
    {
      tasks := CollectTasks(registry, skipDisabled);
      var c := Config(workers, cliWorkers);
      var cli := seq(|tasks|, k requires 0 <= k < |tasks| => isCli(tasks[k]));
      s := Initial(|tasks|);
      run := [s];
      InitialIsSound(c, cli);
      RunStarts(c, cli);
      hide Sound, IsRun, CanStep, Step, StepsLeft, PanicsSeen;
      while StepsLeft(c, cli, s, |tasks|) > 0
        invariant Sound(c, cli, s) && |s.places| == |tasks| && run != [] && IsRun(c, cli, run) && run[|run| - 1] == s
        invariant PanicsSeen(s, tasks, panics)
        decreases StepsLeft(c, cli, s, |tasks|)
      {
        NothingLeft(c, cli, s, |tasks|);
        var waiting :| 0 <= waiting < |tasks| && !IsDone(s.places[waiting]);
        SomeoneCanStep(c, cli, s, waiting);
        var i: nat :| i < |tasks| && CanStep(c, cli, s, i);
        StepIsSound(c, cli, s, i, panics(tasks[i]));
        StepPanics(c, cli, s, i, tasks, panics);
        StepCounts(c, cli, s, i, panics(tasks[i]), |tasks|);
        RunExtends(c, cli, run, i, panics(tasks[i]));
        s := Step(c, cli, s, i, panics(tasks[i]));
        run := run + [s];
      }
      NothingLeft(c, cli, s, |tasks|);
      EmptyWhenDone(c, cli, s);
      NoPanicEscapes(c, cli, s);
      AllPanicsSeen(s, tasks, panics);
    }
  }

  /** Every indexed node belongs to a registered account, which lists it. */
  lemma EveryNodeIsOwned(registry: Registry)
    requires registry.Valid()
    ensures forall i :: i in registry.nodeIndex ==> OwnerId(registry, i) in registry.accountById
    ensures forall id :: id in registry.accountById ==>
                           Registered(registry.accountById, registry.accountTable, registry.accountById[id])
    ensures forall id, i :: id in registry.accountById ==>
                              (i in registry.accountTable[registry.accountById[id]].nodes <==>
                                 i in registry.nodeIndex && OwnerId(registry, i) == id)
  {
    hide Consistent;
    forall i
      ensures i in registry.nodeIndex ==> OwnerId(registry, i) in registry.accountById
    {
      registry.LookUp(i);
    }
    forall id | id in registry.accountById
      ensures Registered(registry.accountById, registry.accountTable, registry.accountById[id])
      ensures forall i :: i in registry.accountTable[registry.accountById[id]].nodes <==>
                            i in registry.nodeIndex && OwnerId(registry, i) == id
    {
      AccountFacts(registry.accountById, registry.accounts, registry.nodeIndex, registry.nodeAccount,
                   registry.accountTable, registry.nodeTable, id);
      registry.LookUpAccount(registry.accountById[id]);
      forall i
        ensures i in registry.nodeIndex && OwnerId(registry, i) == id ==>
                  i in registry.accountTable[registry.accountById[id]].nodes
      {
        registry.LookUp(i);
      }
    }
  }

  lemma RunStarts(c: Config, cli: seq<bool>)
    ensures IsRun(c, cli, [Initial(|cli|)])
  {
  }

  /** On its way out a goroutine panics if its check did, until that is recovered, which is recorded. */
  predicate PanicSeen(s: State, k: nat, panics: bool)
    requires k < |s.places|
  {
    && (s.places[k].Leaving? ==> s.places[k].panicking == (panics && Recover in s.places[k].calls))
    && (k in s.recovered <==> panics && s.places[k].Leaving? && Recover !in s.places[k].calls)
  }

  ghost predicate PanicsSeen(s: State, tasks: seq<string>, panics: string -> bool) {
    && |s.places| == |tasks| && (forall k :: k in s.recovered ==> k < |tasks|)
    && forall k :: 0 <= k < |tasks| ==> PanicSeen(s, k, panics(tasks[k]))
  }

  lemma StepPanic(c: Config, cli: seq<bool>, s: State, i: nat, panics: bool)
    requires Sound(c, cli, s) && CanStep(c, cli, s, i) && PanicSeen(s, i, panics)
    ensures PanicSeen(Step(c, cli, s, i, panics), i, panics)
  {
    assert PlaceSound(c, cli, i, s.places[i]);
    hide Sound, PlaceSound;
    if s.places[i].Leaving? {
      NextCall(c, cli, i, s.places[i]);
    }
  }

  lemma StepPanics(c: Config, cli: seq<bool>, s: State, i: nat, tasks: seq<string>, panics: string -> bool)
    requires Sound(c, cli, s) && CanStep(c, cli, s, i) && PanicsSeen(s, tasks, panics)
    ensures PanicsSeen(Step(c, cli, s, i, panics(tasks[i])), tasks, panics)
    ensures |Step(c, cli, s, i, panics(tasks[i])).places| == |tasks|
  {
    hide PlaceSound, Holders, CliHolders, Counting, Defers;
    var t := Step(c, cli, s, i, panics(tasks[i]));
    StepPanic(c, cli, s, i, panics(tasks[i]));
    forall k | 0 <= k < |tasks| && k != i
      ensures PanicSeen(t, k, panics(tasks[k]))
    {
      assert PanicSeen(s, k, panics(tasks[k]));
    }
  }

  lemma AllPanicsSeen(s: State, tasks: seq<string>, panics: string -> bool)
    requires PanicsSeen(s, tasks, panics) && forall k :: 0 <= k < |tasks| ==> IsDone(s.places[k])
    ensures s.recovered == set k | 0 <= k < |tasks| && panics(tasks[k])
  {
    forall k | 0 <= k < |tasks|
      ensures k in s.recovered <==> panics(tasks[k])
    {
      assert PanicSeen(s, k, panics(tasks[k]));
    }
  }

  lemma RunExtends(c: Config, cli: seq<bool>, run: seq<State>, i: nat, panics: bool)
    requires IsRun(c, cli, run) && CanStep(c, cli, run[|run| - 1], i)
    ensures IsRun(c, cli, run + [Step(c, cli, run[|run| - 1], i, panics)])
  {
    var to := Step(c, cli, run[|run| - 1], i, panics);
    assert Next(c, cli, run[|run| - 1], to);
    var all := run + [to];
    assert forall k :: 0 <= k < |run| ==> all[k] == run[k];
  }

  /** The account of node `i`. */
  function OwnerId(registry: Registry, i: string): string
    reads registry
  {
    if i in registry.nodeAccount && registry.nodeAccount[i] in registry.accountTable
    then registry.accountTable[registry.nodeAccount[i]].id else ""
  }

  /** Node `i` is to be checked. */
  predicate IsTask(registry: Registry, skipDisabled: bool, i: string)
    reads registry
  {
    i in registry.nodeIndex && registry.nodeIndex[i] in registry.nodeTable
    && !(skipDisabled && registry.nodeTable[registry.nodeIndex[i]].disabled)
  }
}
