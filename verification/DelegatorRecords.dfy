/**
  The registries behind the Cangjie ability delegator: monitors by id and ability tokens by ability id.
  Every locked section is one step; calls from different threads interleave between their sections.
*/
module DelegatorRecords {
  import opened Wrappers

  /** A monitor object, numbered in the order of creation; `moduleName` is absent when the caller gave an empty one. */
  datatype Monitor = Monitor(serial: nat, abilityName: string, moduleName: Option<string>)

  /** The handle of an ability, a 64-bit number. */
  datatype AbilityId = AbilityId(number: int)

  /** The token of an ability; 0 is a null pointer. */
  type Token = nat

  /** The two registries and the number of monitor objects made so far. */
  datatype Records = Records(monitors: map<int, Monitor>, abilities: map<AbilityId, Token>, made: nat)

  const EMPTY: Records := Records(map[], map[], 0)

  datatype MonitorRecordOp = ADD | REMOVE

  datatype Step =
    | UseMonitor(id: int, abilityName: string, moduleName: string, op: MonitorRecordOp)
    | Record(ability: AbilityId, token: Token)
    | Clear(token: Token)

  predicate Adds(st: Step, id: int) {
    st.UseMonitor? && st.id == id && st.op == ADD
  }

  predicate Removes(st: Step, id: int) {
    st.UseMonitor? && st.id == id && st.op == REMOVE
  }

  predicate RecordsAbility(st: Step, ability: AbilityId) {
    st.Record? && st.ability == ability
  }

  // ---------------------------------------------------------------------------------------------
  // One step

  function NewMonitor(s: Records, abilityName: string, moduleName: string): Monitor {
    Monitor(s.made, abilityName, if moduleName == "" then None else Some(moduleName))
  }

  /** The monitor that a use returns. */
  function Returned(s: Records, id: int, abilityName: string, moduleName: string, op: MonitorRecordOp): Option<Monitor> {
    if id in s.monitors then Some(s.monitors[id])
    else if op == REMOVE then None
    else Some(NewMonitor(s, abilityName, moduleName))
  }

  function Used(s: Records, id: int, abilityName: string, moduleName: string, op: MonitorRecordOp): Records {
    if op == REMOVE then s.(monitors := s.monitors - {id})
    else if id in s.monitors then s
    else s.(monitors := s.monitors[id := NewMonitor(s, abilityName, moduleName)], made := s.made + 1)
  }

  function Cleared(abilities: map<AbilityId, Token>, token: Token): map<AbilityId, Token> {
    map k | k in abilities && abilities[k] != token :: abilities[k]
  }

  function Do(s: Records, st: Step): Records {
    match st
    case UseMonitor(id, abilityName, moduleName, op) => Used(s, id, abilityName, moduleName, op)
    case Record(ability, token) => if ability in s.abilities then s else s.(abilities := s.abilities[ability := token])
    case Clear(token) => s.(abilities := Cleared(s.abilities, token))
  }

  function After(steps: seq<Step>): Records {
    if steps == [] then EMPTY else Do(After(steps[..|steps| - 1]), steps[|steps| - 1])
  }

  // ---------------------------------------------------------------------------------------------
  // The locked sections

  class Registry {
    var monitorRecord: map<int, Monitor>
    var abilityRecord: map<AbilityId, Token>
    var made: nat

    function Now(): Records
      reads this
    {
      Records(monitorRecord, abilityRecord, made)
    }

    constructor ()
      ensures Now() == EMPTY
    {
      monitorRecord, abilityRecord, made := map[], map[], 0;
    }

    method GetOrCreateMonitor(monitorId: int, abilityName: string, moduleName: string, op: MonitorRecordOp)
        returns (monitor: Option<Monitor>)
      modifies this
      ensures monitor == Returned(old(Now()), monitorId, abilityName, moduleName, op)
      ensures Now() == Do(old(Now()), UseMonitor(monitorId, abilityName, moduleName, op))
    {
      if monitorId in monitorRecord {
        monitor := Some(monitorRecord[monitorId]);
        if op == REMOVE {
          monitorRecord := monitorRecord - {monitorId};
        }
        return;
      }
      if op == REMOVE {
        assert monitorRecord - {monitorId} == monitorRecord;
        return None;
      }
      var cjMonitor;
      if moduleName == "" {
        cjMonitor := Monitor(made, abilityName, None);
      } else {
        cjMonitor := Monitor(made, abilityName, Some(moduleName));
      }
      made := made + 1;
      monitorRecord := monitorRecord[monitorId := cjMonitor];
      return Some(cjMonitor);
    }

    /** `emplace` under the lock: an entry that is there stays. */
    method Emplace(ability: AbilityId, token: Token)
      modifies this
      ensures Now() == Do(old(Now()), Record(ability, token))
    {
      if ability !in abilityRecord {
        abilityRecord := abilityRecord[ability := token];
      }
    }

    /** Where an iterator at `key` goes next; `None` before the first entry and behind the last one. */
    method NextEntry(key: Option<AbilityId>) returns (it: Option<AbilityId>)
      ensures IsNext(abilityRecord.Keys, key, it)
    {
      var later := set k | k in abilityRecord && Behind(key, k);
      assert forall k <- abilityRecord.Keys :: Behind(key, k) ==> k in later;
      if later == {} {
        return None;
      }
      LeastKey(later);
      var least :| least in later && forall k <- later :: least.number <= k.number;
      it := Some(least);
    }

    /** `erase(it)`: the entry goes, and the iterator returned stands behind it. */
    method Erase(it: AbilityId) returns (next: Option<AbilityId>)
      requires it in abilityRecord
      modifies this`abilityRecord
      ensures abilityRecord == old(abilityRecord) - {it}
      ensures IsNext(abilityRecord.Keys, Some(it), next)
    {
      abilityRecord := abilityRecord - {it};
      next := NextEntry(Some(it));
    }

    /** `clearFunc`: walks the entries in the order of their keys with an iterator and erases under it. */
    method ClearFunc(property: Option<Token>)
      modifies this
      ensures Now() == if property.None? then old(Now()) else Do(old(Now()), Clear(property.value))
    {
      if property.None? {
        return;
      }
      var token := property.value;
      var it := NextEntry(None);
      while it.Some?
        invariant it.Some? ==> it.value in abilityRecord
        invariant monitorRecord == old(monitorRecord) && made == old(made)
        invariant forall k <- abilityRecord :: k in old(abilityRecord) && abilityRecord[k] == old(abilityRecord[k])
        invariant forall k <- abilityRecord :: abilityRecord[k] == token ==> it.Some? && it.value.number <= k.number
        invariant forall k <- old(abilityRecord) :: k in abilityRecord || old(abilityRecord[k]) == token
        decreases set k | k in abilityRecord && it.Some? && it.value.number <= k.number
      {
        ghost var ahead := set k | k in abilityRecord && it.value.number <= k.number;
        assert it.value in ahead;
        if abilityRecord[it.value] == token {
          it := Erase(it.value);
        } else {
          it := NextEntry(it);
        }
        assert (set k | k in abilityRecord && it.Some? && it.value.number <= k.number) < ahead;
      }
      assert abilityRecord == Cleared(old(abilityRecord), token);
    }

    /**
      Waiting for a monitor, where `property` is what the delegator's wait returns: the monitor is used,
      then the same token is recorded by the delegator and again by its caller, each under its own lock.
    */
    method WaitAbilityMonitor(monitorId: int, abilityName: string, moduleName: string, property: Option<(AbilityId, Token)>)
        returns (abilityId: Option<AbilityId>)
      modifies this
      ensures var used := Do(old(Now()), UseMonitor(monitorId, abilityName, moduleName, ADD));
              if property.None? then Now() == used && abilityId.None?
              else
                var record := Record(property.value.0, property.value.1);
                Now() == Do(Do(used, record), record) && abilityId == Some(property.value.0)
    {
      var cjMonitor := GetOrCreateMonitor(monitorId, abilityName, moduleName, ADD);
      if property.None? {
        return None;
      }
      Emplace(property.value.0, property.value.1);
      Emplace(property.value.0, property.value.1);
      abilityId := Some(property.value.0);
    }

    /** The token of an ability, for the calls that act on it. */
    method FindToken(ability: AbilityId) returns (token: Option<Token>)
      ensures token.Some? <==> ability in abilityRecord && abilityRecord[ability] != 0
      ensures token.Some? ==> token.value == abilityRecord[ability]
    {
      var remoteObject := 0;
      if ability in abilityRecord {
        remoteObject := abilityRecord[ability];
      }
      return if remoteObject == 0 then None else Some(remoteObject);
    }
  }

  /** `k` stands behind `key` in the order of the map. */
  predicate Behind(key: Option<AbilityId>, k: AbilityId) {
    key.None? || key.value.number < k.number
  }

  /** `it` is the first of the keys behind `key`, if there is one. */
  predicate IsNext(keys: set<AbilityId>, key: Option<AbilityId>, it: Option<AbilityId>) {
    if it.None? then forall k <- keys :: !Behind(key, k)
    else it.value in keys && Behind(key, it.value) && forall k <- keys :: Behind(key, k) ==> it.value.number <= k.number
  }

  lemma {:induction false} LeastKey(keys: set<AbilityId>)
    requires keys != {}
    ensures exists key :: key in keys && forall k <- keys :: key.number <= k.number
  {
    var a :| a in keys;
    var rest := keys - {a};
    assert forall k <- keys :: k == a || k in rest;
    if rest != {} {
      LeastKey(rest);
      var b :| b in rest && forall k <- rest :: b.number <= k.number;
      assert a.number <= b.number || b in keys;
    }
  }

  // ---------------------------------------------------------------------------------------------
  // Monitors over a run

  /** What step `i` of a run returned. */
  function ReturnedAt(steps: seq<Step>, i: nat): Option<Monitor>
    requires i < |steps| && steps[i].UseMonitor?
  {
    Returned(After(steps[..i]), steps[i].id, steps[i].abilityName, steps[i].moduleName, steps[i].op)
  }

  lemma AfterNext(steps: seq<Step>, i: nat)
    requires i < |steps|
    ensures After(steps[..i + 1]) == Do(After(steps[..i]), steps[i])
  {
    assert steps[..i + 1][..i] == steps[..i];
  }

  lemma {:induction false} KeptMonitor(steps: seq<Step>, id: int, i: nat, j: nat)
    requires i <= j <= |steps| && id in After(steps[..i]).monitors
    requires forall k :: i <= k < j ==> !Removes(steps[k], id)
    ensures id in After(steps[..j]).monitors && After(steps[..j]).monitors[id] == After(steps[..i]).monitors[id]
  {
    if i < j {
      KeptMonitor(steps, id, i, j - 1);
      AfterNext(steps, j - 1);
    }
  }

  /** Between two removals every use of an id returns one object, and the removal returns it too. */
  lemma OneMonitorBetweenRemovals(steps: seq<Step>, id: int, i: nat, j: nat)
    requires i < j < |steps| && Adds(steps[i], id) && (Adds(steps[j], id) || Removes(steps[j], id))
    requires forall k :: i < k < j ==> !Removes(steps[k], id)
    ensures ReturnedAt(steps, i).Some? && ReturnedAt(steps, j) == ReturnedAt(steps, i)
  {
    AfterNext(steps, i);
    KeptMonitor(steps, id, i + 1, j);
  }

  /** Every use of the id before the end has been removed. */
  predicate AllRemoved(steps: seq<Step>, id: int) {
    forall b: nat :: b < |steps| && Adds(steps[b], id) ==> RemovedAfter(steps, id, b)
  }

  predicate RemovedAfter(steps: seq<Step>, id: int, b: nat) {
    exists r :: b < r < |steps| && Removes(steps[r], id)
  }

  /** An id is unknown exactly when every use of it was followed by a removal. */
  lemma {:induction false} UnknownIffRemoved(steps: seq<Step>, id: int)
    ensures id !in After(steps).monitors <==> AllRemoved(steps, id)
  {
    if steps != [] {
      var n := |steps| - 1;
      UnknownIffRemoved(steps[..n], id);
      if Removes(steps[n], id) {
        assert AllRemoved(steps, id);
      } else if Adds(steps[n], id) {
        assert !AllRemoved(steps, id);
      } else {
        SameRemovals(steps, id);
      }
    }
  }

  lemma SameRemovals(steps: seq<Step>, id: int)
    requires steps != [] && !Removes(steps[|steps| - 1], id) && !Adds(steps[|steps| - 1], id)
    ensures AllRemoved(steps, id) <==> AllRemoved(steps[..|steps| - 1], id)
  {
    hide RemovedAfter;
    var before := steps[..|steps| - 1];
    assert forall b :: 0 <= b < |before| ==> before[b] == steps[b];
    forall b: nat | b < |before| ensures RemovedAfter(steps, id, b) <==> RemovedAfter(before, id, b) {
      SameRemoval(steps, id, b);
    }
  }

  lemma SameRemoval(steps: seq<Step>, id: int, b: nat)
    requires steps != [] && !Removes(steps[|steps| - 1], id)
    ensures RemovedAfter(steps, id, b) <==> RemovedAfter(steps[..|steps| - 1], id, b)
  {
    var before := steps[..|steps| - 1];
    assert forall r :: 0 <= r < |before| ==> before[r] == steps[r];
  }

  /** The first use since the last removal makes the object, from the names it was given. */
  lemma BuiltFromFirstNames(steps: seq<Step>, id: int, a: nat)
    requires a < |steps| && Adds(steps[a], id) && AllRemoved(steps[..a], id)
    ensures ReturnedAt(steps, a).Some?
    ensures var monitor := ReturnedAt(steps, a).value;
            && monitor.abilityName == steps[a].abilityName
            && monitor.moduleName == if steps[a].moduleName == "" then None else Some(steps[a].moduleName)
    ensures forall b :: 0 <= b < a && steps[b].UseMonitor? && ReturnedAt(steps, b).Some? ==>
              ReturnedAt(steps, b).value.serial != ReturnedAt(steps, a).value.serial
  {
    UnknownIffRemoved(steps[..a], id);
    forall b | 0 <= b < a && steps[b].UseMonitor? && ReturnedAt(steps, b).Some?
      ensures ReturnedAt(steps, b).value.serial < After(steps[..a]).made
    {
      ReturnedWasMade(steps, b);
      MadeGrows(steps, b + 1, a);
    }
  }

  /** A use returns nothing exactly when it removes an id that is unknown. */
  lemma NothingReturnedIff(steps: seq<Step>, id: int, i: nat)
    requires i < |steps| && (Adds(steps[i], id) || Removes(steps[i], id))
    ensures ReturnedAt(steps, i).None? <==> Removes(steps[i], id) && AllRemoved(steps[..i], id)
  {
    UnknownIffRemoved(steps[..i], id);
  }

  predicate AllMade(s: Records) {
    forall id <- s.monitors :: s.monitors[id].serial < s.made
  }

  lemma {:induction false} MadeGrows(steps: seq<Step>, i: nat, j: nat)
    requires i <= j <= |steps|
    ensures After(steps[..i]).made <= After(steps[..j]).made
  {
    if i < j {
      MadeGrows(steps, i, j - 1);
      AfterNext(steps, j - 1);
    }
  }

  lemma {:induction false} RunKeepsAllMade(steps: seq<Step>)
    ensures AllMade(After(steps))
  {
    if steps != [] {
      RunKeepsAllMade(steps[..|steps| - 1]);
    }
  }

  lemma ReturnedWasMade(steps: seq<Step>, i: nat)
    requires i < |steps| && steps[i].UseMonitor? && ReturnedAt(steps, i).Some?
    ensures ReturnedAt(steps, i).value.serial < After(steps[..i + 1]).made
  {
    RunKeepsAllMade(steps[..i]);
    AfterNext(steps, i);
  }

  // ---------------------------------------------------------------------------------------------
  // Tokens over a run

  lemma {:induction false} KeptToken(steps: seq<Step>, ability: AbilityId, i: nat, j: nat)
    requires i <= j <= |steps| && ability in After(steps[..i]).abilities
    requires forall k :: i <= k < j ==> steps[k] != Clear(After(steps[..i]).abilities[ability])
    ensures ability in After(steps[..j]).abilities
    ensures After(steps[..j]).abilities[ability] == After(steps[..i]).abilities[ability]
  {
    if i < j {
      KeptToken(steps, ability, i, j - 1);
      AfterNext(steps, j - 1);
    }
  }

  /** Step `i` recorded the token for an ability that had none, and the token was not cleared since. */
  predicate FirstSinceCleared(steps: seq<Step>, ability: AbilityId, i: nat) {
    && i < |steps| && RecordsAbility(steps[i], ability)
    && ability !in After(steps[..i]).abilities
    && forall k :: i < k < |steps| ==> steps[k] != Clear(steps[i].token)
  }

  /**
    Read off the steps alone: record `i` holds the ability at the end when its token was not cleared since,
    and when it came no earlier record held the ability.
  */
  ghost predicate Holds(steps: seq<Step>, ability: AbilityId, i: nat)
    decreases |steps|
  {
    && i < |steps| && RecordsAbility(steps[i], ability)
    && (forall k :: i < k < |steps| ==> steps[k] != Clear(steps[i].token))
    && (forall j: nat :: j < i ==> !Holds(steps[..i], ability, j))
  }

  /** An ability resolves to a token exactly when a record of that token holds it. */
  lemma ResolvesToFirstRecorded(steps: seq<Step>, ability: AbilityId)
    ensures ability in After(steps).abilities <==> exists i: nat :: Holds(steps, ability, i)
    ensures forall i: nat :: Holds(steps, ability, i) ==>
              ability in After(steps).abilities && After(steps).abilities[ability] == steps[i].token
  {
    forall i: nat | Holds(steps, ability, i)
      ensures ability in After(steps).abilities && After(steps).abilities[ability] == steps[i].token
    {
      HoldsResolves(steps, ability, i);
    }
    if ability in After(steps).abilities {
      ResolvedHolds(steps, ability);
    }
  }

  lemma {:induction false} HoldsResolves(steps: seq<Step>, ability: AbilityId, i: nat)
    requires Holds(steps, ability, i)
    ensures ability in After(steps).abilities && After(steps).abilities[ability] == steps[i].token
    decreases |steps|
  {
    if ability in After(steps[..i]).abilities {
      ResolvedHolds(steps[..i], ability);
    }
    AfterNext(steps, i);
    KeptToken(steps, ability, i + 1, |steps|);
    assert steps[..|steps|] == steps;
  }

  lemma {:induction false} ResolvedHolds(steps: seq<Step>, ability: AbilityId)
    requires ability in After(steps).abilities
    ensures exists i: nat :: Holds(steps, ability, i)
    decreases |steps|
  {
    RecordedSince(steps, ability);
    var i: nat :| FirstSinceCleared(steps, ability, i);
    forall j: nat | j < i ensures !Holds(steps[..i], ability, j) {
      if Holds(steps[..i], ability, j) {
        HoldsResolves(steps[..i], ability, j);
      }
    }
    assert Holds(steps, ability, i);
  }

  lemma {:induction false} RecordedSince(steps: seq<Step>, ability: AbilityId)
    requires ability in After(steps).abilities
    ensures exists i: nat :: FirstSinceCleared(steps, ability, i) && steps[i].token == After(steps).abilities[ability]
  {
    var n := |steps| - 1;
    var before := steps[..n];
    if ability in After(before).abilities {
      RecordedSince(before, ability);
      var i: nat :| FirstSinceCleared(before, ability, i) && before[i].token == After(before).abilities[ability];
      assert steps[..i] == before[..i];
      assert forall k :: i < k < n ==> steps[k] == before[k];
      assert FirstSinceCleared(steps, ability, i);
    } else {
      assert FirstSinceCleared(steps, ability, n);
    }
  }

  /** An ability that resolves to nothing has had every recorded entry cleared. */
  lemma UnresolvedMeansCleared(steps: seq<Step>, ability: AbilityId, i: nat)
    requires ability !in After(steps).abilities && i < |steps| && RecordsAbility(steps[i], ability)
    ensures ability in After(steps[..i + 1]).abilities
    ensures exists c :: i < c < |steps| && steps[c] == Clear(After(steps[..i + 1]).abilities[ability])
  {
    AfterNext(steps, i);
    assert steps[..|steps|] == steps;
    if forall c :: i < c < |steps| ==> steps[c] != Clear(After(steps[..i + 1]).abilities[ability]) {
      KeptToken(steps, ability, i + 1, |steps|);
    }
  }

  /** Step `c` clears the entry of the ability: some record holds it, and its token is cleared. */
  ghost predicate ClearsEntry(steps: seq<Step>, ability: AbilityId, c: nat) {
    c < |steps| && exists j: nat :: j < c && Holds(steps[..c], ability, j) && steps[c] == Clear(steps[j].token)
  }

  /** Between `i` and `n` every clear of the entry is followed by another record of the ability. */
  ghost predicate AlwaysRestored(steps: seq<Step>, ability: AbilityId, i: nat, n: nat) {
    forall c: nat :: i <= c < n <= |steps| && ClearsEntry(steps, ability, c) ==>
      exists r :: c < r < n && RecordsAbility(steps[r], ability)
  }

  lemma ClearsEntryIs(steps: seq<Step>, ability: AbilityId, c: nat)
    requires c < |steps|
    ensures ClearsEntry(steps, ability, c) <==>
            ability in After(steps[..c]).abilities && steps[c] == Clear(After(steps[..c]).abilities[ability])
  {
    ResolvesToFirstRecorded(steps[..c], ability);
    assert forall j: nat :: Holds(steps[..c], ability, j) ==> j < c && steps[..c][j] == steps[j];
  }

  lemma {:induction false} ResolvedIffRestored(steps: seq<Step>, ability: AbilityId, i: nat, n: nat)
    requires i <= n <= |steps| && ability in After(steps[..i]).abilities
    ensures ability in After(steps[..n]).abilities <==> AlwaysRestored(steps, ability, i, n)
  {
    hide Holds, ClearsEntry, After, Cleared;
    if i < n {
      ResolvedIffRestored(steps, ability, i, n - 1);
      ResolvedNext(steps, ability, n - 1);
      if RecordsAbility(steps[n - 1], ability) {
        ClearsEntryIs(steps, ability, n - 1);
        forall c: nat | i <= c < n - 1 && ClearsEntry(steps, ability, c)
          ensures exists r :: c < r < n && RecordsAbility(steps[r], ability)
        {
          assert RecordsAbility(steps[n - 1], ability);
        }
      } else {
        LastNotRecord(steps, ability, i, n);
      }
    }
  }

  lemma ResolvedNext(steps: seq<Step>, ability: AbilityId, c: nat)
    requires c < |steps|
    ensures ability in After(steps[..c + 1]).abilities <==>
            RecordsAbility(steps[c], ability) || (ability in After(steps[..c]).abilities && !ClearsEntry(steps, ability, c))
  {
    hide ClearsEntry;
    AfterNext(steps, c);
    ClearsEntryIs(steps, ability, c);
  }

  lemma LastNotRecord(steps: seq<Step>, ability: AbilityId, i: nat, n: nat)
    requires i < n <= |steps| && !RecordsAbility(steps[n - 1], ability)
    ensures AlwaysRestored(steps, ability, i, n) <==>
            AlwaysRestored(steps, ability, i, n - 1) && !ClearsEntry(steps, ability, n - 1)
  {
    hide ClearsEntry;
    if AlwaysRestored(steps, ability, i, n) {
      forall c: nat | i <= c < n - 1 && ClearsEntry(steps, ability, c)
        ensures exists r :: c < r < n - 1 && RecordsAbility(steps[r], ability)
      {
        var r :| c < r < n && RecordsAbility(steps[r], ability);
        assert r < n - 1;
      }
    }
  }

  /**
    Waiting records the same token twice, and any steps may come in between.  The second record is without
    effect exactly when every clear of the ability's entry in between is followed there by another record
    of the ability.
  */
  lemma SecondRecordIdleIff(before: seq<Step>, between: seq<Step>, ability: AbilityId, token: Token)
    ensures var first := before + [Record(ability, token)];
            var steps := first + between;
            After(steps + [Record(ability, token)]) == After(steps) <==> AlwaysRestored(steps, ability, |first|, |steps|)
  {
    hide AlwaysRestored;
    var first := before + [Record(ability, token)];
    var steps := first + between;
    var twice := steps + [Record(ability, token)];
    AfterNext(first, |before|);
    AfterNext(twice, |steps|);
    assert first[..|first|] == first && first[..|before|] == before;
    assert twice[..|twice|] == twice && twice[..|steps|] == steps;
    assert steps[..|first|] == first && steps[..|steps|] == steps;
    ResolvedIffRestored(steps, ability, |first|, |steps|);
  }

  /** When no other step records the ability in between: exactly when nobody cleared the token that it holds. */
  lemma SecondRecordAloneIdleIff(before: seq<Step>, between: seq<Step>, ability: AbilityId, token: Token)
    requires forall k :: 0 <= k < |between| ==> !RecordsAbility(between[k], ability)
    ensures var first := before + [Record(ability, token)];
            && ability in After(first).abilities
            && var held := After(first).abilities[ability];
               After(first + between + [Record(ability, token)]) == After(first + between) <==> Clear(held) !in between
  {
    var first := before + [Record(ability, token)];
    assert first[..|before|] == before;
    var all := first + between;
    var twice := all + [Record(ability, token)];
    assert twice[..|all|] == all;
    assert all[..|first|] == first && all[..|all|] == all;
    var held := After(first).abilities[ability];
    if Clear(held) in between {
      var c :| 0 <= c < |between| && between[c] == Clear(held);
      StaysUnresolved(all, ability, held, |first|, |first| + c);
    } else {
      KeptToken(all, ability, |first|, |all|);
    }
  }

  /** Once its token is cleared an ability stays unresolved until it is recorded again. */
  lemma StaysUnresolved(steps: seq<Step>, ability: AbilityId, held: Token, i: nat, c: nat)
    requires i <= c < |steps| && steps[c] == Clear(held)
    requires ability in After(steps[..i]).abilities && After(steps[..i]).abilities[ability] == held
    requires forall k :: i <= k < |steps| ==> !RecordsAbility(steps[k], ability)
    ensures ability !in After(steps).abilities
  {
    HeldOrGone(steps, ability, held, i, c);
    AfterNext(steps, c);
    StaysGone(steps, ability, c + 1, |steps|);
    assert steps[..|steps|] == steps;
  }

  lemma {:induction false} HeldOrGone(steps: seq<Step>, ability: AbilityId, held: Token, i: nat, j: nat)
    requires i <= j <= |steps|
    requires ability in After(steps[..i]).abilities && After(steps[..i]).abilities[ability] == held
    requires forall k :: i <= k < |steps| ==> !RecordsAbility(steps[k], ability)
    ensures ability in After(steps[..j]).abilities ==> After(steps[..j]).abilities[ability] == held
  {
    if i < j {
      hide After, Do;
      HeldOrGone(steps, ability, held, i, j - 1);
      AfterNext(steps, j - 1);
      HeldNext(After(steps[..j - 1]), steps[j - 1], ability, held);
    }
  }

  lemma HeldNext(s: Records, st: Step, ability: AbilityId, held: Token)
    requires !RecordsAbility(st, ability) && (ability in s.abilities ==> s.abilities[ability] == held)
    ensures ability in Do(s, st).abilities ==> Do(s, st).abilities[ability] == held
  {
  }

  lemma {:induction false} StaysGone(steps: seq<Step>, ability: AbilityId, i: nat, j: nat)
    requires i <= j <= |steps| && ability !in After(steps[..i]).abilities
    requires forall k :: i <= k < j ==> !RecordsAbility(steps[k], ability)
    ensures ability !in After(steps[..j]).abilities
  {
    if i < j {
      StaysGone(steps, ability, i, j - 1);
      AfterNext(steps, j - 1);
    }
  }

  /** A token cleared between the two records of a wait comes back. */
  lemma ClearedTokenComesBack(ability: AbilityId, token: Token)
    ensures var steps := [Record(ability, token), Clear(token), Record(ability, token)];
            var s := After(steps);
            ability in s.abilities && s.abilities[ability] == token
  {
    var steps := [Record(ability, token), Clear(token), Record(ability, token)];
    assert steps[..0] == [];
    AfterNext(steps, 0);
    AfterNext(steps, 1);
    AfterNext(steps, 2);
    assert steps[..3] == steps;
  }
}
