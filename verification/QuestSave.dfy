/** Saving a quest log: the stored quests are loaded, matched with the new log while the loaded list
    is compacted in place, and what remains of the list is deleted. */
module QuestSave {

  const MAX_QUEST_OBJECTIVES := 3

  type Counts = s: seq<int> | |s| == MAX_QUEST_OBJECTIVES witness [0, 0, 0]

  datatype Quest = Quest(id: int, time: int, count: Counts, state: int)

  /** A table row without its primary key, the pair of character and quest. */
  datatype Progress = Progress(time: int, count: Counts, state: int)

  type Table = map<(int, int), Progress>

  function ProgressOf(q: Quest): Progress { Progress(q.time, q.count, q.state) }

  predicate DistinctIds(log: seq<Quest>) {
    forall i, j | 0 <= i < j < |log| :: log[i].id != log[j].id
  }

  predicate Has(log: seq<Quest>, id: int) {
    exists i | 0 <= i < |log| :: log[i].id == id
  }

  /** What a row must hold after the save: state and counts are new, the time of a known quest is kept. */
  function Merged(q: Quest, stored: Table, charId: int): Progress {
    Progress(if (charId, q.id) in stored then stored[(charId, q.id)].time else q.time, q.count, q.state)
  }

  /** The table holds exactly the new log for the character. */
  ghost predicate Holds(rows: Table, log: seq<Quest>, stored: Table, charId: int) {
    && (forall i | 0 <= i < |log| :: (charId, log[i].id) in rows && rows[(charId, log[i].id)] == Merged(log[i], stored, charId))
    && (forall id | (charId, id) in rows :: Has(log, id))
  }

  /** Field by field: a row holds state and counts of the new log, and the time that was stored or, if the
      quest is new, the one in the log. */
  lemma HoldsMeans(rows: Table, log: seq<Quest>, stored: Table, charId: int)
    ensures Holds(rows, log, stored, charId) <==>
            && (forall i | 0 <= i < |log| ::
                  var k := (charId, log[i].id);
                  && k in rows && rows[k].state == log[i].state && rows[k].count == log[i].count
                  && rows[k].time == (if k in stored then stored[k].time else log[i].time))
            && forall id | (charId, id) in rows :: exists i | 0 <= i < |log| :: log[i].id == id
  {}

  ghost predicate OthersKept(rows: Table, rows': Table, charId: int) {
    forall k: (int, int) | k.0 != charId :: (k in rows <==> k in rows') && (k in rows ==> rows[k] == rows'[k])
  }

  // ----- the loop, on values

  /** The quests still in the loaded list are the stored ones the new log has not named yet. */
  ghost predicate Left(oldLog: seq<Quest>, log: seq<Quest>, stored: Table, charId: int) {
    && DistinctIds(oldLog)
    && (forall j | 0 <= j < |oldLog| ::
          && (charId, oldLog[j].id) in stored && stored[(charId, oldLog[j].id)] == ProgressOf(oldLog[j])
          && !Has(log, oldLog[j].id))
    && (forall id | (charId, id) in stored :: Has(log, id) || Has(oldLog, id))
  }

  /** The rows named so far are merged, the others as stored. */
  ghost predicate Merging(rows: Table, log: seq<Quest>, stored: Table, charId: int) {
    && DistinctIds(log)
    && (forall i | 0 <= i < |log| :: (charId, log[i].id) in rows && rows[(charId, log[i].id)] == Merged(log[i], stored, charId))
    && (forall id | !Has(log, id) ::
          && ((charId, id) in rows <==> (charId, id) in stored)
          && ((charId, id) in rows ==> rows[(charId, id)] == stored[(charId, id)]))
  }

  /** No quest of the log is stored. */
  ghost predicate NoneStored(log: seq<Quest>, stored: Table, charId: int) {
    forall i | 0 <= i < |log| :: (charId, log[i].id) !in stored
  }

  class QuestTable {
    var rows: Table
    /** How many statements failed for reasons of the database's own. */
    ghost var faults: nat

    method Update(charId: int, q: Quest) returns (ok: bool)
      modifies this
      ensures faults >= old(faults) && (!ok ==> rows == old(rows) && faults > old(faults))
      ensures ok && (charId, q.id) in old(rows) ==>
                rows == old(rows)[(charId, q.id) := Progress(old(rows)[(charId, q.id)].time, q.count, q.state)]
      ensures ok && (charId, q.id) !in old(rows) ==> rows == old(rows)
    {
      ok := *;
      if !ok {
        faults := faults + 1;
      } else if (charId, q.id) in rows {
        rows := rows[(charId, q.id) := Progress(rows[(charId, q.id)].time, q.count, q.state)];
      }
    }

    /** Inserting a key that is present fails. */
    method Add(charId: int, q: Quest) returns (ok: bool)
      modifies this
      ensures faults >= old(faults) && (!ok ==> rows == old(rows) && (faults > old(faults) || (charId, q.id) in rows))
      ensures ok ==> (charId, q.id) !in old(rows) && rows == old(rows)[(charId, q.id) := ProgressOf(q)]
    {
      ok := *;
      if !ok { faults := faults + 1; }
      if (charId, q.id) in rows { ok := false; }
      if ok { rows := rows[(charId, q.id) := ProgressOf(q)]; }
    }

    method Delete(charId: int, id: int) returns (ok: bool)
      modifies this
      ensures faults >= old(faults) && (!ok ==> rows == old(rows) && faults > old(faults))
      ensures ok ==> rows == old(rows) - {(charId, id)}
    {
      ok := *;
      if ok { rows := rows - {(charId, id)}; } else { faults := faults + 1; }
    }

    /** `mapif_quests_fromsql`: the rows arrive in any order; a failed query yields no quests. */
    method Load(charId: int) returns (loaded: bool, log: seq<Quest>)
      modifies this`faults
      ensures faults == (if loaded then old(faults) else old(faults) + 1) && (!loaded ==> log == [])
      ensures loaded ==> Left(log, [], rows, charId)
    {
      loaded, log := *, [];
      if !loaded {
        faults := faults + 1;
        return;
      }
      var keys := set k | k in rows && k.0 == charId;
      while keys != {}
        invariant forall k | k in keys :: k in rows && k.0 == charId && !Has(log, k.1)
        invariant DistinctIds(log)
        invariant forall j | 0 <= j < |log| :: (charId, log[j].id) in rows && rows[(charId, log[j].id)] == ProgressOf(log[j])
        invariant forall id | (charId, id) in rows :: Has(log, id) || (charId, id) in keys
        decreases |keys|
      {
        var k :| k in keys;
        var q := Quest(k.1, rows[k].time, rows[k].count, rows[k].state);
        ghost var before := log;
        log := log + [q];
        keys := keys - {k};
        forall id ensures Has(log, id) <==> Has(before, id) || id == k.1 { HasMore(before, q, id); }
      }
    }

    /** One quest of the new log: updated if the loaded list has it, which then loses it, else added. */
    method SaveOne(charId: int, q: Quest, oldLog: array<Quest>, oldCount: nat,
                   ghost log: seq<Quest>, ghost stored: Table, ghost loaded: bool)
      returns (n: nat, ok: bool)
      requires oldCount <= oldLog.Length
      requires if loaded then Left(oldLog[..oldCount], log, stored, charId) else oldCount == 0
      modifies this, oldLog
      ensures n <= oldLog.Length && faults >= old(faults) && OthersKept(old(rows), rows, charId)
      ensures if loaded then Left(oldLog[..n], log + [q], stored, charId) else n == 0
      ensures loaded && ok && Merging(old(rows), log, stored, charId) ==> Merging(rows, log + [q], stored, charId)
      ensures loaded && !ok && faults == old(faults) && Merging(old(rows), log, stored, charId) ==> !DistinctIds(log + [q])
      ensures !loaded ==> forall k | k in old(rows) :: k in rows && rows[k] == old(rows)[k]
      ensures !loaded && ok && Merging(old(rows), log, stored, charId) && NoneStored(log, stored, charId) ==>
                Merging(rows, log + [q], stored, charId) && NoneStored(log + [q], stored, charId)
      ensures !loaded && !ok && faults == old(faults) && Merging(old(rows), log, stored, charId) ==>
                !(DistinctIds(log + [q]) && NoneStored(log + [q], stored, charId))
    {
      hide Left, Merging, OthersKept;
      n, ok := oldCount, true;
      ghost var before, list := rows, oldLog[..oldCount];
      var j := FindQuest(oldLog, oldCount, q.id);
      if j < oldCount {
        if q.count != oldLog[j].count || q.state != oldLog[j].state {
          ok := Update(charId, q);
        }
        UpdateMerges(before, rows, list, j, log, q, stored, charId, ok);
        LeftTaken(list, j, log, q, stored, charId);
        n := n - 1;
        assert list[..j] + list[j + 1..] == oldLog[..j] + oldLog[j + 1..oldCount];
        Compact(oldLog, j, oldCount);
      } else {
        ok := Add(charId, q);
        if loaded {
          LeftSkipped(list, log, q, stored, charId);
          AddMerges(before, list, log, q, stored, charId);
        } else if Merging(before, log, stored, charId) {
          AddUnlisted(before, log, q, stored, charId);
        }
        AddKeepsOthers(before, rows, charId, q);
      }
    }

    /** `mapif_parse_quest_save`; the answer goes into the acknowledgement. */
    method Save(charId: int, newLog: seq<Quest>) returns (success: bool, ghost loaded: bool)
      modifies this
      ensures faults >= old(faults) && OthersKept(old(rows), rows, charId)
      ensures loaded && success ==> DistinctIds(newLog) && Holds(rows, newLog, old(rows), charId)
      ensures faults == old(faults) ==> loaded && (success <==> DistinctIds(newLog))
      ensures !loaded ==> forall k | k in old(rows) :: k in rows && rows[k] == old(rows)[k]
      ensures !loaded && success ==> NoneStored(newLog, old(rows), charId) && Merging(rows, newLog, old(rows), charId)
      ensures !loaded && faults == old(faults) + 1 ==> (success <==> DistinctIds(newLog) && NoneStored(newLog, old(rows), charId))
      ensures success ==> (Holds(rows, newLog, old(rows), charId) <==> loaded || forall id :: (charId, id) !in old(rows))
    {
      hide Left, Merging, Holds, NoneStored;
      ghost var stored := rows;
      var list;
      loaded, list := Load(charId);
      var oldCount: nat := |list|;
      var oldLog := new Quest[oldCount](k requires 0 <= k < |list| => list[k]);
      assert oldLog[..oldCount] == list;
      success := true;
      MergesNothing(rows, charId);
      var i := 0;
      while i < |newLog|
        invariant i <= |newLog| && oldCount <= oldLog.Length && faults >= old(faults)
        invariant OthersKept(stored, rows, charId)
        invariant if loaded then Left(oldLog[..oldCount], newLog[..i], stored, charId) else oldCount == 0
        invariant loaded && success ==> Merging(rows, newLog[..i], stored, charId)
        invariant faults == old(faults) ==> loaded && (success || !DistinctIds(newLog))
        invariant !loaded ==> forall k | k in stored :: k in rows && rows[k] == stored[k]
        invariant !loaded && success ==> Merging(rows, newLog[..i], stored, charId) && NoneStored(newLog[..i], stored, charId)
        invariant !loaded ==> faults > old(faults)
        invariant !loaded && faults == old(faults) + 1 ==>
                    success || !(DistinctIds(newLog) && NoneStored(newLog, stored, charId))
      {
        var ok;
        assert newLog[..i + 1] == newLog[..i] + [newLog[i]];
        PrefixDistinct(newLog, i + 1, stored, charId);
        oldCount, ok := SaveOne(charId, newLog[i], oldLog, oldCount, newLog[..i], stored, loaded);
        success := success && ok;
        i := i + 1;
      }
      assert newLog[..i] == newLog;
      success := DeleteLeft(charId, oldLog, oldCount, success, newLog, stored, loaded);
      if !loaded && success { LeftoversStay(rows, newLog, stored, charId); }
    }

    /** Quests still in the loaded list are not in the new log and go. */
    method DeleteLeft(charId: int, oldLog: array<Quest>, oldCount: nat, added: bool,
                      ghost log: seq<Quest>, ghost stored: Table, ghost loaded: bool)
      returns (success: bool)
      requires oldCount <= oldLog.Length
      requires if loaded then Left(oldLog[..oldCount], log, stored, charId) else oldCount == 0
      requires loaded && added ==> Merging(rows, log, stored, charId)
      modifies this
      ensures faults >= old(faults) && OthersKept(old(rows), rows, charId) && (success ==> added)
      ensures loaded && success ==> DistinctIds(log) && Holds(rows, log, stored, charId)
      ensures faults == old(faults) ==> success == added
      ensures !loaded ==> success == added && rows == old(rows) && faults == old(faults)
    {
      hide Left, Merging, Holds;
      success := added;
      if loaded && success { StartDeleting(rows, oldLog[..oldCount], log, stored, charId); }
      var i := 0;
      while i < oldCount
        invariant i <= oldCount && faults >= old(faults) && OthersKept(old(rows), rows, charId) && (success ==> added)
        invariant loaded && success ==> DistinctIds(log) && Deleting(rows, oldLog[i..oldCount], log, stored, charId)
        invariant faults == old(faults) ==> success == added
        invariant !loaded ==> success == added && rows == old(rows) && faults == old(faults)
      {
        ghost var before := rows;
        var ok := Delete(charId, oldLog[i].id);
        if loaded && success && ok {
          DeleteStep(before, oldLog[..oldCount], i, log, stored, charId);
          assert oldLog[..oldCount][i..] == oldLog[i..oldCount] && oldLog[..oldCount][i + 1..] == oldLog[i + 1..oldCount];
        }
        success := success && ok;
        i := i + 1;
      }
      assert oldLog[i..oldCount] == [];
      if loaded && success { DoneDeleting(rows, log, stored, charId); }
    }
  }

  method FindQuest(oldLog: array<Quest>, oldCount: nat, id: int) returns (j: nat)
    requires oldCount <= oldLog.Length
    ensures j <= oldCount
    ensures j < oldCount ==> oldLog[j].id == id
    ensures j == oldCount ==> !Has(oldLog[..oldCount], id)
  {
    j := 0;
    while j < oldCount && oldLog[j].id != id
      invariant j <= oldCount && forall k | 0 <= k < j :: oldLog[k].id != id
    {
      j := j + 1;
    }
  }

  /** The entries behind position `j` move one place forward. */
  method Compact(oldLog: array<Quest>, j: nat, oldCount: nat)
    requires j < oldCount <= oldLog.Length
    modifies oldLog
    ensures oldLog[..oldCount - 1] == old(oldLog[..j] + oldLog[j + 1..oldCount])
  {
    var k := j;
    while k + 1 < oldCount
      invariant j <= k < oldCount
      invariant forall m | 0 <= m < oldCount :: oldLog[m] == old(if j <= m < k then oldLog[m + 1] else oldLog[m])
    {
      oldLog[k] := oldLog[k + 1];
      k := k + 1;
    }
    oldLog[k] := Quest(0, 0, [0, 0, 0], 0);
  }

  lemma HasMore(log: seq<Quest>, q: Quest, id: int)
    ensures Has(log + [q], id) <==> Has(log, id) || q.id == id
  {
    assert q.id == id ==> (log + [q])[|log|].id == id;
    if Has(log, id) {
      var i :| 0 <= i < |log| && log[i].id == id;
      assert (log + [q])[i].id == id;
    }
  }

  lemma HasFewer(list: seq<Quest>, j: nat, id: int)
    requires j < |list| && DistinctIds(list)
    ensures Has(list[..j] + list[j + 1..], id) <==> Has(list, id) && id != list[j].id
  {
    var rest := list[..j] + list[j + 1..];
    if Has(list, id) && id != list[j].id {
      var k :| 0 <= k < |list| && list[k].id == id;
      assert rest[if k < j then k else k - 1].id == id;
    }
    if Has(rest, id) {
      var k :| 0 <= k < |rest| && rest[k].id == id;
      assert list[if k < j then k else k + 1].id == id;
    }
  }

  lemma LeftTaken(list: seq<Quest>, j: nat, log: seq<Quest>, q: Quest, stored: Table, charId: int)
    requires Left(list, log, stored, charId) && j < |list| && list[j].id == q.id
    ensures Left(list[..j] + list[j + 1..], log + [q], stored, charId)
  {
    hide Has;
    var rest := list[..j] + list[j + 1..];
    forall id
      ensures Has(rest, id) <==> Has(list, id) && id != q.id
      ensures Has(log + [q], id) <==> Has(log, id) || id == q.id
    {
      HasFewer(list, j, id);
      HasMore(log, q, id);
    }
    forall k | 0 <= k < |rest|
      ensures rest[k] == list[if k < j then k else k + 1]
    {}
  }

  lemma LeftSkipped(list: seq<Quest>, log: seq<Quest>, q: Quest, stored: Table, charId: int)
    requires Left(list, log, stored, charId) && !Has(list, q.id)
    ensures Left(list, log + [q], stored, charId)
  {
    assert forall j | 0 <= j < |list| :: list[j].id != q.id;
    hide Has;
    forall id ensures Has(log + [q], id) <==> Has(log, id) || id == q.id { HasMore(log, q, id); }
  }

  lemma UpdateMerges(rows: Table, rows': Table, list: seq<Quest>, j: nat, log: seq<Quest>, q: Quest, stored: Table, charId: int, ok: bool)
    requires Left(list, log, stored, charId) && j < |list| && list[j].id == q.id
    requires var k := (charId, q.id);
      if ok && (q.count != list[j].count || q.state != list[j].state) then
        rows' == (if k in rows then rows[k := Progress(rows[k].time, q.count, q.state)] else rows)
      else rows' == rows
    ensures OthersKept(rows, rows', charId)
    ensures ok && Merging(rows, log, stored, charId) ==> Merging(rows', log + [q], stored, charId)
  {
    if ok && Merging(rows, log, stored, charId) {
      assert !Has(log, q.id);
      MergingOne(rows, rows', log, q, stored, charId);
    }
  }

  /** Giving one more id its merged row. */
  lemma MergingOne(rows: Table, rows': Table, log: seq<Quest>, q: Quest, stored: Table, charId: int)
    requires Merging(rows, log, stored, charId) && !Has(log, q.id)
    requires rows' == rows[(charId, q.id) := Merged(q, stored, charId)]
    ensures Merging(rows', log + [q], stored, charId)
  {
    assert forall i | 0 <= i < |log| :: log[i].id != q.id;
    hide Has;
    forall id ensures Has(log + [q], id) <==> Has(log, id) || id == q.id { HasMore(log, q, id); }
  }

  lemma AddMerges(rows: Table, list: seq<Quest>, log: seq<Quest>, q: Quest, stored: Table, charId: int)
    requires Left(list, log, stored, charId) && !Has(list, q.id)
    ensures Merging(rows, log, stored, charId) && (charId, q.id) !in rows ==>
              Merging(rows[(charId, q.id) := ProgressOf(q)], log + [q], stored, charId)
    ensures Merging(rows, log, stored, charId) && (charId, q.id) in rows ==> !DistinctIds(log + [q])
  {
    if Merging(rows, log, stored, charId) {
      if (charId, q.id) !in rows {
        assert !Has(log, q.id);
        MergingOne(rows, rows[(charId, q.id) := ProgressOf(q)], log, q, stored, charId);
      } else {
        assert Has(log, q.id);
        var i :| 0 <= i < |log| && log[i].id == q.id;
        assert (log + [q])[i].id == (log + [q])[|log|].id;
      }
    }
  }

  lemma AddKeepsOthers(rows: Table, rows': Table, charId: int, q: Quest)
    requires rows' == rows || rows' == rows[(charId, q.id) := ProgressOf(q)]
    ensures OthersKept(rows, rows', charId)
  {}

  lemma MergesNothing(stored: Table, charId: int)
    ensures Merging(stored, [], stored, charId) && NoneStored([], stored, charId)
  {}

  lemma PrefixDistinct(log: seq<Quest>, n: nat, stored: Table, charId: int)
    requires n <= |log|
    ensures DistinctIds(log) ==> DistinctIds(log[..n])
    ensures NoneStored(log, stored, charId) ==> NoneStored(log[..n], stored, charId)
  {}

  // ----- without the stored quests

  /** With nothing loaded a quest of the new log can only be added. */
  lemma AddUnlisted(rows: Table, log: seq<Quest>, q: Quest, stored: Table, charId: int)
    requires Merging(rows, log, stored, charId)
    ensures (charId, q.id) !in rows && NoneStored(log, stored, charId) ==>
              && Merging(rows[(charId, q.id) := ProgressOf(q)], log + [q], stored, charId)
              && NoneStored(log + [q], stored, charId)
    ensures (charId, q.id) in rows ==> !(DistinctIds(log + [q]) && NoneStored(log + [q], stored, charId))
  {
    if (charId, q.id) !in rows {
      assert !Has(log, q.id);
      MergingOne(rows, rows[(charId, q.id) := ProgressOf(q)], log, q, stored, charId);
    } else if Has(log, q.id) {
      var i :| 0 <= i < |log| && log[i].id == q.id;
      assert (log + [q])[i].id == (log + [q])[|log|].id;
    } else {
      assert (log + [q])[|log|].id == q.id;
    }
  }

  /** An acknowledged save that could not load the stored quests holds the new log exactly when the
      character had no quests; otherwise the old ones stay beside the new. */
  lemma LeftoversStay(rows: Table, log: seq<Quest>, stored: Table, charId: int)
    requires Merging(rows, log, stored, charId) && NoneStored(log, stored, charId)
    ensures DistinctIds(log) && (Holds(rows, log, stored, charId) <==> forall id :: (charId, id) !in stored)
  {
    forall id | (charId, id) in stored
      ensures (charId, id) in rows && !Has(log, id)
    {}
    if Holds(rows, log, stored, charId) {
      assert forall id :: (charId, id) !in stored;
    } else if forall id :: (charId, id) !in stored {
      assert forall id | (charId, id) in rows :: Has(log, id);
    }
  }

  /** For example: quest 7 is stored, the new log is quest 8 alone, and afterwards both are stored. */
  lemma SevenStays(p: Progress, q: Quest)
    requires q.id == 8
    ensures
      var stored: Table := map[(1, 7) := p];
      var rows := stored[(1, 8) := ProgressOf(q)];
      NoneStored([q], stored, 1) && Merging(rows, [q], stored, 1) && !Holds(rows, [q], stored, 1)
  {
    var stored: Table := map[(1, 7) := p];
    MergesNothing(stored, 1);
    AddUnlisted(stored, [], q, stored, 1);
    assert [] + [q] == [q] && (1, 7) in stored;
    LeftoversStay(stored[(1, 8) := ProgressOf(q)], [q], stored, 1);
  }

  /** What is left of the list must go. */
  ghost predicate Deleting(rows: Table, rest: seq<Quest>, log: seq<Quest>, stored: Table, charId: int) {
    && (forall i | 0 <= i < |log| :: (charId, log[i].id) in rows && rows[(charId, log[i].id)] == Merged(log[i], stored, charId))
    && (forall id | (charId, id) in rows :: Has(log, id) || Has(rest, id))
  }

  lemma StartDeleting(rows: Table, list: seq<Quest>, log: seq<Quest>, stored: Table, charId: int)
    requires Left(list, log, stored, charId) && Merging(rows, log, stored, charId)
    ensures DistinctIds(log) && Deleting(rows, list[0..], log, stored, charId)
  {
    assert list[0..] == list;
    hide Has;
  }

  lemma DoneDeleting(rows: Table, log: seq<Quest>, stored: Table, charId: int)
    requires Deleting(rows, [], log, stored, charId)
    ensures Holds(rows, log, stored, charId)
  {
    assert forall id :: !Has([], id);
  }

  lemma DeleteStep(rows: Table, list: seq<Quest>, i: nat, log: seq<Quest>, stored: Table, charId: int)
    requires Left(list, log, stored, charId) && i < |list| && Deleting(rows, list[i..], log, stored, charId)
    ensures Deleting(rows - {(charId, list[i].id)}, list[i + 1..], log, stored, charId)
  {
    forall id | Has(list[i..], id) && id != list[i].id
      ensures Has(list[i + 1..], id)
    {
      var k :| 0 <= k < |list[i..]| && list[i..][k].id == id;
      assert list[i + 1..][k - 1].id == id;
    }
    assert forall k | 0 <= k < |log| && log[k].id == list[i].id :: Has(log, list[i].id);
  }
}
