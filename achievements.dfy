/**
 * The ACHIEVEMENTS table and check_achievements: every record that is still locked and whose
 * condition holds on the stats snapshot becomes unlocked, and its name is reported.
 */
module Achievements {

  /** The stats snapshot the game keeps for the conditions. */
  datatype Stats = Stats(score: int, powerupsCollected: int, level: int)

  /** The conditions of the table, as a closed set of threshold tests. */
  datatype Condition = ScoreAtLeast(n: int) | PowerupsAtLeast(n: int) | LevelAtLeast(n: int)

  predicate Holds(c: Condition, stats: Stats)
  {
    match c
    case ScoreAtLeast(n) => stats.score >= n
    case PowerupsAtLeast(n) => stats.powerupsCollected >= n
    case LevelAtLeast(n) => stats.level >= n
  }

  datatype Achievement = Achievement(key: string, name: string, desc: string, condition: Condition, unlocked: bool)

  /** ACHIEVEMENTS in its insertion order, all locked (before the saved flags are loaded). */
  const Table: seq<Achievement> := [
    Achievement("score_50", "Score Master", "Reach a score of 50", ScoreAtLeast(50), false),
    Achievement("powerups_3", "Power-up Pro", "Collect 3 power-ups", PowerupsAtLeast(3), false),
    Achievement("level_3", "Level Climber", "Reach Level 3", LevelAtLeast(3), false)
  ]

  /** A record unlocks on this call: it is locked and its condition holds. */
  predicate Unlocks(a: Achievement, stats: Stats)
  {
    !a.unlocked && Holds(a.condition, stats)
  }

  /** The records differ only in flags that went from locked to unlocked. */
  predicate OnlyUnlocks(before: seq<Achievement>, after: seq<Achievement>)
  {
    && |after| == |before|
    && forall i :: 0 <= i < |before| ==> after[i] == before[i].(unlocked := before[i].unlocked || after[i].unlocked)
  }

  /** The records after a check: each unlocked flag becomes "was unlocked or the condition holds". */
  function Checked(records: seq<Achievement>, stats: Stats): (r: seq<Achievement>)
    ensures |r| == |records|
    ensures forall i :: 0 <= i < |records| ==>
      r[i].unlocked == (records[i].unlocked || Holds(records[i].condition, stats)) &&
      r[i].(unlocked := records[i].unlocked) == records[i]
  {
    seq(|records|, i requires 0 <= i < |records| =>
      if Unlocks(records[i], stats) then records[i].(unlocked := true) else records[i])
  }

  /** The names reported by a check, in table order. */
  function NewUnlocks(records: seq<Achievement>, stats: Stats): seq<string>
    decreases |records|
  {
    if records == [] then []
    else
      var last := records[|records| - 1];
      NewUnlocks(records[..|records| - 1], stats) + (if Unlocks(last, stats) then [last.name] else [])
  }

  /** check_achievements (without the save to disk): one pass over the records in order. */
  method CheckAchievements(records: seq<Achievement>, stats: Stats) returns (updated: seq<Achievement>, newUnlocks: seq<string>)
    ensures updated == Checked(records, stats)
    ensures newUnlocks == NewUnlocks(records, stats)
  {
    updated := records;
    newUnlocks := [];
    for i := 0 to |records|
      invariant |updated| == |records|
      invariant forall j :: 0 <= j < i ==> updated[j] == Checked(records, stats)[j]
      invariant forall j :: i <= j < |records| ==> updated[j] == records[j]
      invariant newUnlocks == NewUnlocks(records[..i], stats)
    {
      assert records[..i + 1][..i] == records[..i];
      if !updated[i].unlocked && Holds(updated[i].condition, stats) {
        updated := updated[i := updated[i].(unlocked := true)];
        newUnlocks := newUnlocks + [updated[i].name];
      }
    }
    assert records[..|records|] == records;
  }

  /** A name is reported exactly when some record was locked, its condition holds, and it has that name. */
  lemma {:induction false} NewUnlocksExact(records: seq<Achievement>, stats: Stats, name: string)
    ensures name in NewUnlocks(records, stats) <==>
      exists i :: 0 <= i < |records| && Unlocks(records[i], stats) && records[i].name == name
    decreases |records|
  {
    if records != [] {
      var n := |records| - 1;
      var init := records[..n];
      NewUnlocksExact(init, stats, name);
      if name in NewUnlocks(records, stats) {
        if name in NewUnlocks(init, stats) {
          var i :| 0 <= i < |init| && Unlocks(init[i], stats) && init[i].name == name;
          assert records[i] == init[i];
        } else {
          assert Unlocks(records[n], stats) && records[n].name == name;
        }
      }
      if exists i :: 0 <= i < |records| && Unlocks(records[i], stats) && records[i].name == name {
        var i :| 0 <= i < |records| && Unlocks(records[i], stats) && records[i].name == name;
        if i < n {
          assert init[i] == records[i];
        }
      }
    }
  }

  /** On the fresh table a check reports each of the three names exactly when its threshold is reached, in table order. */
  lemma TableUnlocks(stats: Stats)
    ensures NewUnlocks(Table, stats) ==
      (if stats.score >= 50 then ["Score Master"] else []) +
      (if stats.powerupsCollected >= 3 then ["Power-up Pro"] else []) +
      (if stats.level >= 3 then ["Level Climber"] else [])
  {
    assert Table[..2][..1][..0] == [];
    assert NewUnlocks(Table[..1], stats) == if stats.score >= 50 then ["Score Master"] else [];
  }

  /** A check reports nothing exactly when it changes nothing (so the flags are saved only on a new unlock). */
  lemma NothingNewIffUnchanged(records: seq<Achievement>, stats: Stats)
    ensures NewUnlocks(records, stats) == [] <==> Checked(records, stats) == records
  {
    var u := NewUnlocks(records, stats);
    if u != [] {
      NewUnlocksExact(records, stats, u[0]);
      var i :| 0 <= i < |records| && Unlocks(records[i], stats) && records[i].name == u[0];
      assert Checked(records, stats)[i] != records[i];
    } else {
      forall i | 0 <= i < |records| ensures !Unlocks(records[i], stats) {
        if Unlocks(records[i], stats) {
          NewUnlocksExact(records, stats, records[i].name);
        }
      }
    }
  }

  /** Checking again with the same stats reports nothing and changes nothing. */
  lemma CheckIdempotent(records: seq<Achievement>, stats: Stats)
    ensures NewUnlocks(Checked(records, stats), stats) == []
    ensures Checked(Checked(records, stats), stats) == Checked(records, stats)
  {
    var once := Checked(records, stats);
    forall i | 0 <= i < |once| ensures Checked(once, stats)[i] == once[i] {
    }
    assert Checked(once, stats) == once;
    NothingNewIffUnchanged(once, stats);
  }
}
