/** The health history of one node: a check is stored only if it tells something new. */
module HealthHistory {
  import opened Common

  const GAP: int := 300_000_000_000

  datatype Check = Check(at: int, success: bool)

  /** The answer of the store to a question for the newest record. */
  datatype Lookup = Failed | Found(newest: Option<Check>)

  /** Whether a check is worth a record of its own; a failed lookup errs on the side of writing. */
  predicate ShouldInsert(lookup: Lookup, c: Check) {
    match lookup
    case Failed => true
    case Found(None) => true
    case Found(Some(last)) => c.at >= last.at && (last.success != c.success || c.at - last.at >= GAP)
  }

  /** The record in force at time `t`: the last one not later than it. */
  function InForce(records: seq<Check>, t: int): Option<Check> {
    if records == [] then None
    else if records[|records| - 1].at <= t then Some(records[|records| - 1])
    else InForce(records[..|records| - 1], t)
  }

  ghost predicate Increasing(s: seq<Check>) {
    forall i, j :: 0 <= i < j < |s| ==> s[i].at < s[j].at
  }

  /** Neighbours with the same outcome are at least five minutes apart. */
  ghost predicate Spaced(s: seq<Check>) {
    forall i :: 0 < i < |s| && s[i].success == s[i - 1].success ==> s[i].at - s[i - 1].at >= GAP
  }

  lemma {:induction false} InForceLater(records: seq<Check>, c: Check, t: int)
    ensures t < c.at ==> InForce(records + [c], t) == InForce(records, t)
    ensures c.at <= t ==> InForce(records + [c], t) == Some(c)
  {
    assert (records + [c])[..|records|] == records;
  }

  lemma InForceLast(records: seq<Check>, t: int)
    requires records != [] && records[|records| - 1].at <= t
    ensures InForce(records, t) == Some(records[|records| - 1])
  {
  }

  function Newest(records: seq<Check>): Option<Check> {
    if records == [] then None else Some(records[|records| - 1])
  }

  /** The answer to the lookup that precedes the next insertion. */
  function Asked(records: seq<Check>, answers: bool): Lookup {
    if answers then Found(Newest(records)) else Failed
  }

  /** The records left by checks handled one by one; `answers` says for which of them the lookup succeeded. */
  function Stored(checks: seq<Check>, answers: seq<bool>): seq<Check>
    requires |answers| == |checks|
  {
    if checks == [] then []
    else
      var n := |checks| - 1;
      var before := Stored(checks[..n], answers[..n]);
      if ShouldInsert(Asked(before, answers[n]), checks[n]) then before + [checks[n]] else before
  }

  /** The record in force at the time of a check has the check's outcome. */
  predicate Tells(records: seq<Check>, c: Check) {
    InForce(records, c.at).Some? && InForce(records, c.at).value.success == c.success
  }

  /** The records tell the outcome of every check ever made, stored or not. */
  ghost predicate Faithful(records: seq<Check>, checks: seq<Check>) {
    forall c :: c in checks ==> Tells(records, c)
  }

  /** Thinning: with checks at increasing times the records have increasing times, every record is a check, and the
      newest record carries the outcome of the newest check. If all lookups succeed, equal outcomes next to each other
      are five minutes apart. */
  lemma {:induction false} HistoryIsThin(checks: seq<Check>, answers: seq<bool>)
    requires Increasing(checks) && |answers| == |checks|
    ensures var records := Stored(checks, answers);
            && Increasing(records) && (forall r :: r in records ==> r in checks)
            && (checks != [] ==> Newest(records).Some? && Newest(records).value.success == checks[|checks| - 1].success)
            && ((forall i :: 0 <= i < |answers| ==> answers[i]) ==> Spaced(records))
  {
    hide InForce, Stored, Increasing, Spaced;
    if checks == [] {
      NothingStored();
    } else {
      var n := |checks| - 1;
      EarlierIncrease(checks);
      HistoryIsThin(checks[..n], answers[..n]);
      var before := Stored(checks[..n], answers[..n]);
      forall r | r in before
        ensures r.at < checks[n].at && r in checks
      {
        assert r in checks[..n];
      }
      StoredLast(checks, answers);
      ThinGrows(before, checks[n]);
    }
  }

  lemma EarlierIncrease(checks: seq<Check>)
    requires checks != [] && Increasing(checks)
    ensures var n := |checks| - 1;
            Increasing(checks[..n]) && forall c :: c in checks[..n] ==> c.at < checks[n].at
  {
  }

  lemma ThinGrows(before: seq<Check>, c: Check)
    requires Increasing(before) && forall r :: r in before ==> r.at < c.at
    ensures Increasing(before + [c])
    ensures Spaced(before) && (before != [] ==> ShouldInsert(Found(Newest(before)), c)) ==> Spaced(before + [c])
  {
    if before != [] {
      assert before[|before| - 1] in before;
    }
  }

  lemma NothingStored()
    ensures Stored([], []) == [] && Increasing([]) && Spaced([])
  {
  }

  lemma TellsStill(before: seq<Check>, x: Check, c: Check)
    requires Tells(before, x) && x.at < c.at
    ensures Tells(before + [c], x)
  {
    hide InForce;
    InForceLater(before, c, x.at);
  }

  lemma TellsNew(before: seq<Check>, answers: bool, c: Check)
    requires before != [] ==> before[|before| - 1].at <= c.at
    ensures Tells(if ShouldInsert(Asked(before, answers), c) then before + [c] else before, c)
  {
    hide InForce;
    InForceLater(before, c, c.at);
    if before != [] {
      InForceLast(before, c.at);
    }
  }

  lemma StoredLast(checks: seq<Check>, answers: seq<bool>)
    requires checks != [] && |answers| == |checks|
    ensures var n := |checks| - 1;
            var before := Stored(checks[..n], answers[..n]);
            Stored(checks, answers) ==
            if ShouldInsert(Asked(before, answers[n]), checks[n]) then before + [checks[n]] else before
  {
  }

  /** Although thinned out, the history has lost none of the outcomes. */
  lemma {:induction false} HistoryIsFaithful(checks: seq<Check>, answers: seq<bool>)
    requires Increasing(checks) && |answers| == |checks|
    ensures Faithful(Stored(checks, answers), checks)
  {
    hide Stored, Spaced;
    if checks != [] {
      var n := |checks| - 1;
      var earlier, c := checks[..n], checks[n];
      assert earlier + [c] == checks;
      HistoryIsThin(earlier, answers[..n]);
      HistoryIsFaithful(earlier, answers[..n]);
      hide Tells, ShouldInsert;
      var before := Stored(earlier, answers[..n]);
      if before != [] {
        assert before[|before| - 1] in earlier;
      }
      StoredLast(checks, answers);
      TellsNew(before, answers[n], c);
      forall x | x in earlier
        ensures Tells(Stored(checks, answers), x)
      {
        TellsStill(before, x, c);
      }
    }
  }

  class History {
    const hasStore: bool
    var records: seq<Check>
    /** All checks so far, stored or not, and whether their lookups succeeded. */
    ghost var checks: seq<Check>
    ghost var answers: seq<bool>

    ghost predicate Valid()
      reads this
    {
      |answers| == |checks| && records == if hasStore then Stored(checks, answers) else []
    }

    constructor (hasStore: bool)
      ensures Valid() && this.hasStore == hasStore && checks == [] && answers == [] && records == []
    {
      this.hasStore, records, checks, answers := hasStore, [], [], [];
    }

    /** One check; `answered` says whether the lookup of the newest record succeeds. A repeat of the last outcome is
        recorded when that is five minutes old. */
    method Record(c: Check, answered: bool)
      requires Valid()
      modifies this`records, this`checks, this`answers
      ensures Valid() && checks == old(checks) + [c] && answers == old(answers) + [answered]
      ensures !hasStore ==> records == old(records)
      ensures hasStore && (!answered || old(records) == []) ==> records == old(records) + [c]
      ensures hasStore && answered && old(records) != [] ==>
                var last := old(records)[|old(records)| - 1];
                records == old(records) +
                  if c.at >= last.at && (c.success != last.success || c.at >= last.at + 300_000_000_000) then [c]
                    else []
    {
      assert (checks + [c])[..|checks|] == checks && (answers + [answered])[..|answers|] == answers;
      checks, answers := checks + [c], answers + [answered];
      if hasStore && ShouldInsert(Asked(records, answered), c) {
        records := records + [c];
      }
    }
  }
}
