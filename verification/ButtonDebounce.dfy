/** What the debouncer does over whole runs of readings. */
module ButtonDebounce {
  import opened Button

  /** The debouncer after a run of readings. */
  function Debounced(debounce: nat, d: Debouncer, readings: seq<bool>): Debouncer {
    if readings == [] then d
    else Sample(debounce, Debounced(debounce, d, readings[..|readings| - 1]), readings[|readings| - 1])
  }

  /** The last n readings all exist and all differ from v. */
  ghost predicate LastDiffer(readings: seq<bool>, n: nat, v: bool) {
    n <= |readings| && forall i :: |readings| - n <= i < |readings| ==> readings[i] != v
  }

  /** The 3-bit counter always holds the exact length of the streak that disagrees with the
      stored level, as long as the debounce setting is at most 7. */
  lemma {:induction false} CounterIsStreak(debounce: nat, level: bool, readings: seq<bool>)
    requires 1 <= debounce <= 7
    ensures var d := Debounced(debounce, Debouncer(level, 0), readings);
            && d.cnt < debounce
            && LastDiffer(readings, d.cnt, d.level)
            && (d.cnt < |readings| ==> readings[|readings| - 1 - d.cnt] == d.level)
  {
    if readings != [] {
      CounterIsStreak(debounce, level, readings[..|readings| - 1]);
    }
  }

  /** One reading on top of a known streak. */
  lemma StreakDecides(debounce: nat, d: Debouncer, readings: seq<bool>, reading: bool)
    requires d.cnt < debounce <= 7
    requires LastDiffer(readings, d.cnt, d.level)
    requires d.cnt < |readings| ==> readings[|readings| - 1 - d.cnt] == d.level
    ensures Sample(debounce, d, reading).level != d.level <==> LastDiffer(readings + [reading], debounce, d.level)
  {
    var all := readings + [reading];
    assert all[|readings|] == reading;
    if reading != d.level {
      if d.cnt + 1 == debounce {
        forall i | |all| - debounce <= i < |all| ensures all[i] != d.level {
          if i < |readings| {
            assert readings[i] != d.level;
          }
        }
      } else if d.cnt < |readings| {
        assert all[|readings| - 1 - d.cnt] == d.level;
      }
    }
  }

  /** Debouncing by readings alone: one more reading flips the stored level exactly when it and the
      readings before it make `debounce` in a row that differ from the stored level. */
  lemma FlipsExactlyAfterStreak(debounce: nat, level: bool, readings: seq<bool>, reading: bool)
    requires 1 <= debounce <= 7
    ensures var before := Debounced(debounce, Debouncer(level, 0), readings).level;
            var after := Debounced(debounce, Debouncer(level, 0), readings + [reading]).level;
            after != before <==> LastDiffer(readings + [reading], debounce, before)
  {
    CounterIsStreak(debounce, level, readings);
    var d := Debounced(debounce, Debouncer(level, 0), readings);
    assert (readings + [reading])[..|readings|] == readings;
    assert Debounced(debounce, Debouncer(level, 0), readings + [reading]) == Sample(debounce, d, reading);
    StreakDecides(debounce, d, readings, reading);
  }

  /** With the largest permitted setting, 8, the 3-bit counter wraps to 0 before it can reach it:
      no run of readings ever changes the stored level. */
  lemma {:induction false} EightNeverFlips(debounce: nat, d: Debouncer, readings: seq<bool>)
    requires 8 <= debounce
    ensures Debounced(debounce, d, readings).level == d.level
  {
    if readings != [] {
      EightNeverFlips(debounce, d, readings[..|readings| - 1]);
    }
  }

  function Rep(v: bool, n: nat): seq<bool> {
    seq(n, _ => v)
  }

  /** The settings 1 to 8 are all permitted; the stored level can change at all iff the setting is at most 7. */
  lemma CanPressIff(debounce: nat, level: bool)
    requires 1 <= debounce
    ensures debounce <= 7 <==> exists readings :: Debounced(debounce, Debouncer(level, 0), readings).level != level
  {
    if debounce <= 7 {
      var before := Rep(!level, debounce - 1);
      FlipsExactlyAfterStreak(debounce, level, before, !level);
      var d := Debounced(debounce, Debouncer(level, 0), before);
      CounterIsStreak(debounce, level, before);
      if d.level == level {
        assert LastDiffer(before + [!level], debounce, level);
        assert Debounced(debounce, Debouncer(level, 0), before + [!level]).level != level;
      } else {
        assert Debounced(debounce, Debouncer(level, 0), before).level != level;
      }
    } else {
      forall readings ensures Debounced(debounce, Debouncer(level, 0), readings).level == level {
        EightNeverFlips(debounce, Debouncer(level, 0), readings);
      }
    }
  }
}
