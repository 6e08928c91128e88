/** The settings cache and its change feed. */
module Settings {
  import opened Common

  /** A setting's value; `Nil` is also what an observer is told when a key disappears. */
  datatype Value = Nil | Text(text: string)

  type Data = map<string, Value>

  /** What a callback is told. */
  datatype Change = Change(key: string, value: Value)

  datatype Setting = Setting(key: string, value: Value, version: int)

  function Lookup(m: Data, key: string): Value {
    if key in m then m[key] else Nil
  }

  /** What an observer knows that started from `m` and was told the changes in `log`. */
  function Replay(m: Data, log: seq<Change>): Data {
    if log == [] then m
    else
      var last := log[|log| - 1];
      Replay(m, log[..|log| - 1])[last.key := last.value]
  }

  /** No key looks different in the two. */
  ghost predicate Agree(m: Data, n: Data) {
    forall key :: Lookup(m, key) == Lookup(n, key)
  }

  lemma ReplayOneMore(m: Data, log: seq<Change>, c: Change)
    ensures Replay(m, log + [c]) == Replay(m, log)[c.key := c.value]
  {
    assert (log + [c])[..|log|] == log;
  }

  /** The listed settings as a map; of several with one key the last wins. */
  function LastWins(settings: seq<Setting>): Data {
    if settings == [] then map[]
    else
      var last := settings[|settings| - 1];
      LastWins(settings[..|settings| - 1])[last.key := last.value]
  }

  function MaxVersion(settings: seq<Setting>): int {
    if settings == [] then 0
    else
      var before, last := MaxVersion(settings[..|settings| - 1]), settings[|settings| - 1];
      if last.version > before then last.version else before
  }

  /** It is the largest listed version, if that is positive. */
  lemma {:induction false} MaxVersionIsLargest(settings: seq<Setting>)
    ensures MaxVersion(settings) >= 0
    ensures forall i :: 0 <= i < |settings| ==> settings[i].version <= MaxVersion(settings)
    ensures MaxVersion(settings) > 0 ==>
              exists i :: 0 <= i < |settings| && settings[i].version == MaxVersion(settings)
  {
    if settings != [] {
      var before := settings[..|settings| - 1];
      MaxVersionIsLargest(before);
      assert forall i :: 0 <= i < |before| ==> before[i] == settings[i];
    }
  }

  lemma {:induction false} ListedKeys(settings: seq<Setting>, key: string)
    ensures key in LastWins(settings) <==> exists i :: 0 <= i < |settings| && settings[i].key == key
  {
    if settings != [] {
      var before := settings[..|settings| - 1];
      ListedKeys(before, key);
      assert forall i :: 0 <= i < |before| ==> before[i] == settings[i];
    }
  }

  /** The map holds, for each listed key, the value listed last. */
  lemma {:induction false} LastOneWins(settings: seq<Setting>, i: nat)
    requires i < |settings| && forall j :: i < j < |settings| ==> settings[j].key != settings[i].key
    ensures settings[i].key in LastWins(settings) && LastWins(settings)[settings[i].key] == settings[i].value
  {
    if i < |settings| - 1 {
      LastOneWins(settings[..|settings| - 1], i);
    }
  }

  /** A refresh from `before` to `after` has to announce the key. */
  predicate Differs(before: Data, after: Data, key: string) {
    if key in after then key !in before || before[key] != after[key] else key in before
  }

  function Told(changes: seq<Change>): set<string> {
    set i | 0 <= i < |changes| :: changes[i].key
  }

  ghost predicate Once(changes: seq<Change>) {
    forall i, j :: 0 <= i < j < |changes| ==> changes[i].key != changes[j].key
  }

  ghost predicate Current(after: Data, changes: seq<Change>) {
    forall i :: 0 <= i < |changes| ==> changes[i].value == Lookup(after, changes[i].key)
  }

  lemma OneMoreTold(changes: seq<Change>, c: Change)
    ensures Told(changes + [c]) == Told(changes) + {c.key}
    ensures Once(changes) && c.key !in Told(changes) ==> Once(changes + [c])
  {
    var all := changes + [c];
    assert all[|changes|] == c && forall i :: 0 <= i < |changes| ==> all[i] == changes[i];
  }

  /** The changes a refresh announces: every difference once, nothing else. */
  ghost predicate Announces(before: Data, after: Data, changes: seq<Change>) {
    && Once(changes) && Current(after, changes)
    && forall key :: key in Told(changes) <==> Differs(before, after, key)
  }

  lemma {:induction false} ReplayLookup(m: Data, changes: seq<Change>, key: string)
    requires Once(changes)
    ensures forall i :: 0 <= i < |changes| && changes[i].key == key ==>
            Lookup(Replay(m, changes), key) == changes[i].value
    ensures (forall i :: 0 <= i < |changes| ==> changes[i].key != key) ==>
            Lookup(Replay(m, changes), key) == Lookup(m, key)
  {
    if changes != [] {
      ReplayLookup(m, changes[..|changes| - 1], key);
    }
  }

  /** Announcing exactly the differences brings an up-to-date observer up to date again. */
  lemma AnnouncedDifferences(seen: Data, before: Data, after: Data, changes: seq<Change>)
    requires Agree(seen, before) && Announces(before, after, changes)
    ensures Agree(Replay(seen, changes), after)
  {
    forall key
      ensures Lookup(Replay(seen, changes), key) == Lookup(after, key)
    {
      ReplayLookup(seen, changes, key);
      if key in Told(changes) {
        var i :| 0 <= i < |changes| && changes[i].key == key;
        assert Lookup(Replay(seen, changes), key) == changes[i].value;
      } else {
        assert Lookup(seen, key) == Lookup(before, key) && !Differs(before, after, key);
      }
    }
  }

  lemma {:induction false} ReplayAppend(m: Data, log: seq<Change>, more: seq<Change>)
    ensures Replay(m, log + more) == Replay(Replay(m, log), more)
  {
    if more == [] {
      assert log + more == log;
    } else {
      ReplayAppend(m, log, more[..|more| - 1]);
      assert (log + more)[..|log + more| - 1] == log + more[..|more| - 1];
    }
  }

  class SettingsCache {
    const hasStore: bool
    var data: Data
    var version: int
    /** What each registered callback has been told, and the contents of the cache when it registered. */
    var onChange: seq<seq<Change>>
    ghost var starts: seq<Data>

    /** Every observer that replays what it was told agrees with the cache. */
    ghost predicate Valid()
      reads this
    {
      |starts| == |onChange| && forall i :: 0 <= i < |starts| ==> Agree(Replay(starts[i], onChange[i]), data)
    }

    /** `listed` is what the store lists, None if there is no store or listing fails. */
    constructor (hasStore: bool, listed: Option<seq<Setting>>)
      ensures Valid() && this.hasStore == hasStore && onChange == []
      ensures data == if hasStore && listed.Some? then LastWins(listed.value) else map[]
      ensures version == if hasStore && listed.Some? then MaxVersion(listed.value) else 0
    {
      this.hasStore := hasStore;
      data, version, onChange, starts := map[], 0, [], [];
      new;
      Reload(listed, false);
      MaxVersionIsLargest(if listed.Some? then listed.value else []);
    }

    method OnChange()
      requires Valid()
      modifies this`onChange, this`starts
      ensures Valid() && onChange == old(onChange) + [[]] && starts == old(starts) + [data]
    {
      onChange := onChange + [[]];
      starts := starts + [data];
    }

    /** Tells every callback. */
    method NotifyChange(key: string, value: Value)
      modifies this`onChange
      ensures |onChange| == |old(onChange)|
      ensures forall i :: 0 <= i < |onChange| ==> onChange[i] == old(onChange)[i] + [Change(key, value)]
    {
      var callbacks := onChange;
      for i := 0 to |callbacks|
        invariant |onChange| == |callbacks|
        invariant forall j :: 0 <= j < |callbacks| ==>
                                onChange[j] == if j < i then callbacks[j] + [Change(key, value)] else callbacks[j]
      {
        onChange := onChange[i := callbacks[i] + [Change(key, value)]];
      }
    }

    /** Stores a value; `stored` is the version the store assigned, None if it failed. */
    method Set(key: string, value: Value, stored: Option<int>) returns (ok: bool)
      requires Valid()
      modifies this`data, this`version, this`onChange
      ensures Valid() && (ok <==> !hasStore || stored.Some?)
      ensures data == if hasStore && stored.Some? then old(data)[key := value] else old(data)
      ensures version == if !hasStore || stored.None? then old(version)
                         else if stored.value <= 0 then old(version) + 1
                         else if stored.value > old(version) then stored.value else old(version)
      ensures !hasStore || stored.None? ==> onChange == old(onChange)
      ensures hasStore && stored.Some? ==>
                && |onChange| == |old(onChange)|
                && forall i :: 0 <= i < |onChange| ==> onChange[i] == old(onChange)[i] + [Change(key, value)]
    {
      if !hasStore {
        return true;
      }
      if stored.None? {
        return false;
      }
      data := data[key := value];
      if stored.value > 0 {
        version := if version > stored.value then version else stored.value;
      } else {
        version := version + 1;
      }
      NotifyChange(key, value);
      ToldOfOne(starts, old(onChange), onChange, old(data), key, value);
      ok := true;
    }

    /** Takes over a value that was stored elsewhere. */
    method UpdateLocal(key: string, value: Value, stored: int)
      requires Valid()
      modifies this`data, this`version, this`onChange
      ensures Valid() && data == old(data)[key := value]
      ensures version == if stored > 0 && stored > old(version) then stored else old(version)
      ensures |onChange| == |old(onChange)|
      ensures forall i :: 0 <= i < |onChange| ==> onChange[i] == old(onChange)[i] + [Change(key, value)]
    {
      data := data[key := value];
      if stored > 0 {
        version := if version > stored then version else stored;
      }
      NotifyChange(key, value);
      ToldOfOne(starts, old(onChange), onChange, old(data), key, value);
    }

    method Refresh(listed: Option<seq<Setting>>)
      requires Valid()
      modifies this`data, this`version, this`onChange
      ensures Valid()
      ensures data == if hasStore && listed.Some? then LastWins(listed.value) else old(data)
      ensures version == if hasStore && listed.Some? && MaxVersion(listed.value) > 0 then MaxVersion(listed.value)
              else old(version)
      ensures |onChange| == |old(onChange)|
      ensures exists changes ::
                && Announces(old(data), data, changes)
                && (forall key :: key in Told(changes) <==>
                      !(key in old(data) <==> key in data) || (key in data && old(data)[key] != data[key]))
                && forall i :: 0 <= i < |onChange| ==> onChange[i] == old(onChange)[i] + changes
    {
      Reload(listed, true);
    }

    method Reload(listed: Option<seq<Setting>>, notify: bool)
      requires Valid() && (!notify ==> onChange == [])
      modifies this`data, this`version, this`onChange
      ensures Valid()
      ensures data == if hasStore && listed.Some? then LastWins(listed.value) else old(data)
      ensures version == if hasStore && listed.Some? && MaxVersion(listed.value) > 0 then MaxVersion(listed.value)
              else old(version)
      ensures |onChange| == |old(onChange)|
      ensures exists changes ::
                Announces(old(data), data, changes)
                && forall i :: 0 <= i < |onChange| ==> onChange[i] == old(onChange)[i] + changes
    {
      if !hasStore || listed.None? {
        assert Announces(data, data, []);
        return;
      }
      var newData, maxVersion := ReadSettings(listed.value);
      var changes := Differences(data, newData);
      data := newData;
      if maxVersion > 0 {
        version := maxVersion;
      }
      if notify {
        Announce(changes);
      }
      forall i | 0 <= i < |starts|
        ensures Agree(Replay(starts[i], onChange[i]), data)
      {
        ReplayAppend(starts[i], old(onChange)[i], changes);
        AnnouncedDifferences(Replay(starts[i], old(onChange)[i]), old(data), data, changes);
      }
    }

    /** The two notification loops of Reload. */
    method Announce(changes: seq<Change>)
      modifies this`onChange
      ensures |onChange| == |old(onChange)|
      ensures forall i :: 0 <= i < |onChange| ==> onChange[i] == old(onChange)[i] + changes
    {
      for k := 0 to |changes|
        invariant |onChange| == |old(onChange)|
        invariant forall i :: 0 <= i < |onChange| ==> onChange[i] == old(onChange)[i] + changes[..k]
      {
        NotifyChange(changes[k].key, changes[k].value);
        assert changes[..k + 1] == changes[..k] + [changes[k]];
      }
    }
  }

  lemma SameUpdate(m: Data, n: Data, key: string, value: Value)
    requires Agree(m, n)
    ensures Agree(m[key := value], n[key := value])
  {
    var m', n' := m[key := value], n[key := value];
    forall k
      ensures Lookup(m', k) == Lookup(n', k)
    {
      assert Lookup(m, k) == Lookup(n, k);
    }
  }

  lemma ToldOfOne(
    starts: seq<Data>, before: seq<seq<Change>>, after: seq<seq<Change>>, data: Data, key: string, value: Value)
    requires |starts| == |before| == |after|
    requires forall i :: 0 <= i < |starts| ==> Agree(Replay(starts[i], before[i]), data)
    requires forall i :: 0 <= i < |starts| ==> after[i] == before[i] + [Change(key, value)]
    ensures forall i :: 0 <= i < |starts| ==> Agree(Replay(starts[i], after[i]), data[key := value])
  {
    forall i | 0 <= i < |starts|
      ensures Agree(Replay(starts[i], after[i]), data[key := value])
    {
      ReplayOneMore(starts[i], before[i], Change(key, value));
      SameUpdate(Replay(starts[i], before[i]), data, key, value);
    }
  }

  /** One pass over the listed settings. */
  method ReadSettings(settings: seq<Setting>) returns (newData: Data, maxVersion: int)
    ensures newData == LastWins(settings) && maxVersion == MaxVersion(settings)
  {
    newData, maxVersion := map[], 0;
    for i := 0 to |settings|
      invariant newData == LastWins(settings[..i]) && maxVersion == MaxVersion(settings[..i])
    {
      assert settings[..i + 1][..i] == settings[..i];
      newData := newData[settings[i].key := settings[i].value];
      if settings[i].version > maxVersion {
        maxVersion := settings[i].version;
      }
    }
    assert settings[..|settings|] == settings;
  }

  /** The new and changed keys first, then the removed ones, each in any order. */
  method Differences(before: Data, after: Data) returns (changes: seq<Change>)
    ensures Announces(before, after, changes)
  {
    changes := Changed(before, after);
    var todo := before.Keys;
    while todo != {}
      invariant todo <= before.Keys && Once(changes) && Current(after, changes)
      invariant forall key :: key in Told(changes) <==> (key in after || key !in todo) && Differs(before, after, key)
      decreases |todo|
    {
      var key :| key in todo;
      todo := todo - {key};
      if key !in after {
        OneMoreTold(changes, Change(key, Nil));
        changes := changes + [Change(key, Nil)];
      }
    }
  }

  /** The first loop of Differences. */
  method Changed(before: Data, after: Data) returns (changes: seq<Change>)
    ensures Once(changes) && Current(after, changes)
    ensures forall key :: key in Told(changes) <==> key in after && Differs(before, after, key)
  {
    changes := [];
    var todo := after.Keys;
    while todo != {}
      invariant todo <= after.Keys && Once(changes) && Current(after, changes)
      invariant forall key :: key in Told(changes) <==> key in after && key !in todo && Differs(before, after, key)
      decreases |todo|
    {
      var key :| key in todo;
      todo := todo - {key};
      if key !in before || before[key] != after[key] {
        OneMoreTold(changes, Change(key, after[key]));
        changes := changes + [Change(key, after[key])];
      }
    }
  }
}
