/** Versioned platform settings. */
module Settings {
  import opened Common

  /** A stored value; a setting starts from the empty one. */
  datatype Value = Empty | Json(text: string)

  datatype Setting = Setting(value: Value, version: nat)
  datatype Change = Change(key: string, oldValue: Value, newValue: Value, version: nat)

  datatype State = State(settings: map<string, Setting>, history: seq<Change>)

  function Set(s: State, key: string, value: Value): State {
    if key !in s.settings then
      State(s.settings[key := Setting(value, 1)], s.history + [Change(key, Empty, value, 1)])
    else
      var was := s.settings[key];
      State(s.settings[key := Setting(value, was.version + 1)],
            s.history + [Change(key, was.value, value, was.version + 1)])
  }

  /** The first change of a key with a given version. */
  function FindVersion(h: seq<Change>, key: string, version: int): Option<Change> {
    if h == [] then None
    else if h[0].key == key && h[0].version == version then Some(h[0])
    else FindVersion(h[1..], key, version)
  }

  function Restore(s: State, key: string, version: int): (State, bool) {
    match FindVersion(s.history, key, version)
    case None => (s, false)
    case Some(c) => (Set(s, key, c.newValue), true)
  }

  class PlatformSettings {
    var settings: map<string, Setting>
    var history: seq<Change>

    ghost function View(): State
      reads this
    {
      State(settings, history)
    }

    constructor ()
      ensures View() == State(map[], [])
    {
      settings, history := map[], [];
    }

    method SetPlatformSetting(key: string, value: Value)
      modifies this
      ensures View() == Set(old(View()), key, value)
    {
      if key !in settings {
        settings := settings[key := Setting(value, 1)];
        history := history + [Change(key, Empty, value, 1)];
        return;
      }
      var previous := settings[key].value;
      var version := settings[key].version + 1;
      history := history + [Change(key, previous, value, version)];
      settings := settings[key := Setting(value, version)];
    }

    method RestorePlatformSetting(key: string, version: int) returns (ok: bool)
      modifies this
      ensures (View(), ok) == Restore(old(View()), key, version)
    {
      var i := 0;
      while i < |history|
        invariant i <= |history| && unchanged(this)
        invariant FindVersion(history, key, version) == FindVersion(history[i..], key, version)
      {
        if history[i].key == key && history[i].version == version {
          SetPlatformSetting(key, history[i].newValue);
          return true;
        }
        i := i + 1;
      }
      return false;
    }
  }

  // ---- Laws -----------------------------------------------------------------------------------

  /** The changes of one key, oldest first. */
  function Of(h: seq<Change>, key: string): seq<Change> {
    if h == [] then []
    else Of(h[..|h| - 1], key) + (if h[|h| - 1].key == key then [h[|h| - 1]] else [])
  }

  /** Versions 1, 2, 3, ... in order, each starting from the value the previous one set. */
  ghost predicate Linked(cs: seq<Change>) {
    forall i :: 0 <= i < |cs| ==> LinkedAt(cs, i)
  }

  predicate LinkedAt(cs: seq<Change>, i: nat)
    requires i < |cs|
  {
    cs[i].version == i + 1 && cs[i].oldValue == (if i == 0 then Empty else cs[i - 1].newValue)
  }

  ghost predicate HistoryComplete(s: State, key: string) {
    var cs := Of(s.history, key);
    && Linked(cs)
    && (key in s.settings <==> cs != [])
    && (cs != [] ==> s.settings[key] == Setting(cs[|cs| - 1].newValue, |cs|))
  }

  ghost predicate Complete(s: State) {
    forall key :: HistoryComplete(s, key)
  }

  lemma OfAppend(h: seq<Change>, c: Change, key: string)
    ensures Of(h + [c], key) == if c.key == key then Of(h, key) + [c] else Of(h, key)
  {
    assert (h + [c])[..|h|] == h;
    assert Of(h, key) + [] == Of(h, key);
  }

  lemma LinkedAppend(cs: seq<Change>, c: Change)
    requires Linked(cs) && c.version == |cs| + 1
    requires c.oldValue == if cs == [] then Empty else cs[|cs| - 1].newValue
    ensures Linked(cs + [c])
  {
    forall i | 0 <= i <= |cs|
      ensures LinkedAt(cs + [c], i)
    {
      assert i < |cs| ==> LinkedAt(cs, i);
    }
  }

  lemma SetKeepsKey(s: State, key: string, value: Value, k: string)
    requires HistoryComplete(s, key) && HistoryComplete(s, k)
    ensures HistoryComplete(Set(s, key, value), k)
  {
    var s' := Set(s, key, value);
    var c := s'.history[|s.history|];
    assert s'.history == s.history + [c];
    OfAppend(s.history, c, k);
    if k == key {
      var cs := Of(s.history, key);
      LinkedAppend(cs, c);
      assert (cs + [c])[|cs|] == c;
    } else {
      assert Of(s'.history, k) == Of(s.history, k);
    }
  }

  /** A change appends one version to its key and leaves every other key alone. */
  lemma SetKeepsHistory(s: State, key: string, value: Value)
    requires Complete(s)
    ensures Complete(Set(s, key, value))
    ensures s.history <= Set(s, key, value).history
    ensures Set(s, key, value).settings[key].value == value
    ensures |Of(Set(s, key, value).history, key)| == |Of(s.history, key)| + 1
  {
    var s' := Set(s, key, value);
    var c := s'.history[|s.history|];
    assert s'.history == s.history + [c];
    OfAppend(s.history, c, key);
    forall k
      ensures HistoryComplete(s', k)
    {
      SetKeepsKey(s, key, value, k);
    }
  }

  lemma {:induction false} FindAmongVersions(h: seq<Change>, key: string, version: int)
    ensures var found := FindVersion(h, key, version);
            && (found.Some? ==> found.value in h && found.value.key == key && found.value.version == version)
            && (found.None? ==> forall i :: 0 <= i < |h| && h[i].key == key ==> h[i].version != version)
  {
    if h != [] {
      FindAmongVersions(h[1..], key, version);
      assert forall i :: 0 < i < |h| ==> h[i] == h[1..][i - 1];
    }
  }

  lemma {:induction false} OfMembers(h: seq<Change>, key: string, c: Change)
    ensures c in Of(h, key) <==> c in h && c.key == key
  {
    if h != [] {
      OfMembers(h[..|h| - 1], key, c);
      assert h == h[..|h| - 1] + [h[|h| - 1]];
    }
  }

  /** Exactly the versions 1..v of a key can be found, and each holds the change that made it. */
  lemma FindIsLookup(s: State, key: string, version: int)
    requires HistoryComplete(s, key)
    ensures var cs := Of(s.history, key);
            FindVersion(s.history, key, version) == if 1 <= version <= |cs| then Some(cs[version - 1]) else None
  {
    var cs := Of(s.history, key);
    FindAmongVersions(s.history, key, version);
    if 1 <= version <= |cs| {
      assert cs[version - 1] in cs && LinkedAt(cs, version - 1);
      OfMembers(s.history, key, cs[version - 1]);
    }
    var found := FindVersion(s.history, key, version);
    if found.Some? {
      OfMembers(s.history, key, found.value);
      var i :| 0 <= i < |cs| && cs[i] == found.value;
      assert LinkedAt(cs, i);
      assert 1 <= version <= |cs| ==> LinkedAt(cs, version - 1);
    }
  }

  /** Restoring version k succeeds exactly for the versions a key has had; the value is then the one
      version k held, and the history has only grown by one change. */
  lemma RestoreIsExact(s: State, key: string, version: int)
    requires Complete(s)
    ensures var cs := Of(s.history, key);
            var (s', ok) := Restore(s, key, version);
            && (ok <==> 1 <= version <= |cs|)
            && (ok ==> key in s'.settings && s'.settings[key] == Setting(cs[version - 1].newValue, |cs| + 1))
            && (!ok ==> s' == s)
            && s.history <= s'.history && Complete(s')
  {
    assert HistoryComplete(s, key);
    FindIsLookup(s, key, version);
    var cs := Of(s.history, key);
    if 1 <= version <= |cs| {
      SetKeepsHistory(s, key, cs[version - 1].newValue);
    }
  }

  datatype Action = DoSet(key: string, value: Value) | DoRestore(key: string, version: int)

  function Step(s: State, a: Action): State {
    match a
    case DoSet(key, value) => Set(s, key, value)
    case DoRestore(key, version) => Restore(s, key, version).0
  }

  function Run(s: State, actions: seq<Action>): State {
    if actions == [] then s else Step(Run(s, actions[..|actions| - 1]), actions[|actions| - 1])
  }

  /** Every run of changes and restores keeps the history of every key complete and append-only. */
  lemma {:induction false} RunsKeepHistory(s: State, actions: seq<Action>)
    requires Complete(s)
    ensures Complete(Run(s, actions)) && s.history <= Run(s, actions).history
  {
    if actions != [] {
      var before := Run(s, actions[..|actions| - 1]);
      RunsKeepHistory(s, actions[..|actions| - 1]);
      match actions[|actions| - 1] {
        case DoSet(key, value) => SetKeepsHistory(before, key, value);
        case DoRestore(key, version) => RestoreIsExact(before, key, version);
      }
    }
  }
}
