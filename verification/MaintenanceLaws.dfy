/** What the loop keeps of its evidence, and for how long: how often it maintains bounds the age of what is stored,
    and nothing recent is ever removed. */
module MaintenanceLaws {
  import opened Sequences
  import opened Evidence
  import opened Inputs
  import opened MonitorLaws
  import opened LoopLaws

  // ---------- the last sweep ----------

  /** The first turn maintains. */
  lemma {:induction false} SomeTurnIsDue(turns: seq<Turn>, maintenance: int)
    requires turns != [] && Punctual(turns, maintenance)
    ensures turns[0].due
  {
    assert turns[..0] == [];
  }

  lemma {:induction false} LastDueExists(turns: seq<Turn>) returns (i: nat)
    requires turns != [] && turns[0].due
    ensures LastDue(turns, i)
  {
    var init := turns[..|turns| - 1];
    if turns[|turns| - 1].due {
      i := |turns| - 1;
    } else {
      i := LastDueExists(init);
      assert init[i] == turns[i];
    }
  }

  lemma {:induction false} LastDueIsRecent(turns: seq<Turn>, i: nat, maintenance: int)
    requires Punctual(turns, maintenance) && LastDue(turns, i)
    ensures i < |turns| - 1 ==> turns[|turns| - 1].now - turns[i].now < maintenance
  {
    if i < |turns| - 1 {
      var init := turns[..|turns| - 1];
      assert LastDue(init, i) && init[i] == turns[i];
      assert !DueAfter(init, turns[|turns| - 1].now, maintenance);
    }
  }

  ghost predicate NoneMaintained(inputs: seq<Input>, from: nat) {
    forall k :: from <= k < |inputs| ==> !inputs[k].Maintained?
  }

  lemma {:induction false} TurnMaintains(turn: Turn, settings: Settings)
    requires Reports(turn.reports)
    ensures forall k :: 0 <= k < |TurnInputs(turn, settings)| && TurnInputs(turn, settings)[k].Maintained? ==>
        turn.due && TurnInputs(turn, settings)[k] == Maintained(turn.now)
  {
  }

  /** Turns that do not maintain add no sweep. */
  lemma {:induction false} QuietTurns(turns: seq<Turn>, n: nat, settings: Settings)
    requires n <= |turns| && forall i :: 0 <= i < |turns| ==> Reports(turns[i].reports)
    requires forall i :: n <= i < |turns| ==> !turns[i].due
    ensures InputsOf(turns[..n], settings) <= InputsOf(turns, settings)
    ensures NoneMaintained(InputsOf(turns, settings), |InputsOf(turns[..n], settings)|)
  {
    if n == |turns| {
      assert turns[..n] == turns;
    } else {
      var init, last := turns[..|turns| - 1], turns[|turns| - 1];
      QuietTurns(init, n, settings);
      assert init[..n] == turns[..n];
      TurnMaintains(last, settings);
    }
  }

  lemma {:induction false} DueTurnSweeps(turns: seq<Turn>, settings: Settings)
    requires turns != [] && turns[|turns| - 1].due
    ensures var all := InputsOf(turns, settings);
      all != [] && all[|all| - 1] == Maintained(turns[|turns| - 1].now)
  {
  }

  lemma {:induction false} SweepLeavesNoOlder(inputs: seq<Input>, settings: Settings, now: int)
    requires inputs != [] && inputs[|inputs| - 1] == Maintained(now)
    ensures forall o :: o in TablesAfter(inputs, settings).observations ==> o.observedAt >= now - settings.retention
  {
    FilterMembers(TablesAfter(inputs[..|inputs| - 1], settings).observations, NotBefore(now - settings.retention));
  }

  /** A row that was not stored yet came with one of the inputs since. */
  lemma {:induction false} RowCameSince(inputs: seq<Input>, settings: Settings, n: nat, o: ObservationRow)
    returns (h: nat)
    requires n < |inputs| && o in TablesAfter(inputs, settings).observations
    requires o !in TablesAfter(inputs[..n], settings).observations
    ensures n <= h < |inputs| && StemsFrom(o, inputs[h], settings)
  {
    var init := inputs[..|inputs| - 1];
    if o in TablesAfter(init, settings).observations {
      assert init[..n] == inputs[..n] && init[..|init|] == init;
      h := RowCameSince(init, settings, n, o);
    } else {
      StepStems(TablesAfter(init, settings), inputs[|inputs| - 1], settings, o);
      h := |inputs| - 1;
    }
  }

  /** The row came with an input after the last sweep. */
  ghost predicate CameSinceSweep(inputs: seq<Input>, settings: Settings, o: ObservationRow) {
    exists h: nat :: h < |inputs| && StemsFrom(o, inputs[h], settings) && NoneMaintained(inputs, h)
  }

  /** Every stored observation was made at the horizon or later, or came after the last sweep. */
  ghost predicate NothingOlder(inputs: seq<Input>, settings: Settings, horizon: int) {
    forall o :: o in TablesAfter(inputs, settings).observations && o.observedAt < horizon ==>
      CameSinceSweep(inputs, settings, o)
  }

  lemma {:induction false} NothingOlderThanSweep(swept: seq<Input>, all: seq<Input>, settings: Settings, now: int,
                                                 horizon: int)
    requires swept != [] && swept[|swept| - 1] == Maintained(now) && swept <= all && NoneMaintained(all, |swept|)
    requires horizon <= now - settings.retention
    ensures NothingOlder(all, settings, horizon)
  {
    SweepLeavesNoOlder(swept, settings, now);
    assert all[..|swept|] == swept && all[..|all|] == all;
    forall o | o in TablesAfter(all, settings).observations && o.observedAt < horizon
      ensures CameSinceSweep(all, settings, o)
    {
      var h := RowCameSince(all, settings, |swept|, o);
    }
  }

  lemma {:induction false} NothingOlderThanLast(turns: seq<Turn>, settings: Settings, i: nat, horizon: int)
    requires LastDue(turns, i) && forall k :: 0 <= k < |turns| ==> Reports(turns[k].reports)
    requires horizon <= turns[i].now - settings.retention
    ensures NothingOlder(InputsOf(turns, settings), settings, horizon)
  {
    DueTurnSweeps(turns[..i + 1], settings);
    QuietTurns(turns, i + 1, settings);
    NothingOlderThanSweep(InputsOf(turns[..i + 1], settings), InputsOf(turns, settings), settings, turns[i].now,
                          horizon);
  }

  lemma {:induction false} LastSweepIsRecent(turns: seq<Turn>, maintenance: int) returns (i: nat)
    requires turns != [] && Punctual(turns, maintenance)
    ensures LastDue(turns, i) && (i < |turns| - 1 ==> turns[|turns| - 1].now - turns[i].now < maintenance)
  {
    SomeTurnIsDue(turns, maintenance);
    i := LastDueExists(turns);
    LastDueIsRecent(turns, i, maintenance);
  }

  /** Nothing outlives the retention by more than the maintenance interval: after every turn of the loop the last
      sweep is less than that interval ago, or belongs to this very turn, and every stored observation was made
      within the retention before that sweep, unless it came since. */
  lemma {:induction false} OldEvidenceIsSwept(turns: seq<Turn>, settings: Settings) returns (i: nat)
    requires turns != [] && Punctual(turns, settings.maintenance)
    requires forall k :: 0 <= k < |turns| ==> Reports(turns[k].reports)
    ensures LastDue(turns, i) && (i < |turns| - 1 ==> turns[|turns| - 1].now - turns[i].now < settings.maintenance)
    ensures NothingOlder(InputsOf(turns, settings), settings, turns[i].now - settings.retention)
  {
    i := LastSweepIsRecent(turns, settings.maintenance);
    NothingOlderThanLast(turns, settings, i, turns[i].now - settings.retention);
  }

  /** In particular nothing stored is older than the retention and the maintenance interval together, unless it came
      since the last sweep. */
  lemma {:induction false} EvidenceAgeBounded(turns: seq<Turn>, settings: Settings)
    requires turns != [] && Punctual(turns, settings.maintenance) && settings.maintenance >= 0
    requires forall k :: 0 <= k < |turns| ==> Reports(turns[k].reports)
    ensures NothingOlder(InputsOf(turns, settings), settings,
                         turns[|turns| - 1].now - settings.retention - settings.maintenance)
  {
    var i := LastSweepIsRecent(turns, settings.maintenance);
    NothingOlderThanLast(turns, settings, i, turns[|turns| - 1].now - settings.retention - settings.maintenance);
  }

  // ---------- what is kept ----------

  function StoredCopies(inputs: seq<Input>, settings: Settings, o: ObservationRow): nat {
    multiset(TablesAfter(inputs, settings).observations)[o]
  }

  lemma {:induction false} StepKeepsCopies(t: Tables, input: Input, settings: Settings, o: ObservationRow)
    requires input.Maintained? ==> o.observedAt >= input.now - settings.retention
    ensures multiset(TablesStep(t, input, settings).observations)[o] >= multiset(t.observations)[o]
  {
    if input.Maintained? {
      SweepCounts(t, input.now - settings.retention);
    }
  }

  ghost predicate SweptBy(inputs: seq<Input>, latest: int) {
    forall k :: 0 <= k < |inputs| && inputs[k].Maintained? ==> inputs[k].now <= latest
  }

  lemma {:induction false} CopiesKept(inputs: seq<Input>, settings: Settings, n: nat, o: ObservationRow, latest: int)
    requires n <= |inputs| && SweptBy(inputs, latest) && o.observedAt >= latest - settings.retention
    ensures StoredCopies(inputs[..n], settings, o) <= StoredCopies(inputs, settings, o)
  {
    if n == |inputs| {
      assert inputs[..n] == inputs;
    } else {
      var init := inputs[..|inputs| - 1];
      assert init[..n] == inputs[..n];
      CopiesKept(init, settings, n, o, latest);
      StepKeepsCopies(TablesAfter(init, settings), inputs[|inputs| - 1], settings, o);
    }
  }

  lemma {:induction false} SweepsInTurns(turns: seq<Turn>, settings: Settings, latest: int)
    requires forall i :: 0 <= i < |turns| ==> Reports(turns[i].reports) && turns[i].now <= latest
    ensures SweptBy(InputsOf(turns, settings), latest)
  {
    if turns != [] {
      SweepsInTurns(turns[..|turns| - 1], settings, latest);
      TurnMaintains(turns[|turns| - 1], settings);
    }
  }

  /** The row is stored at least as often as it was after any of the inputs. */
  ghost predicate NeverLost(inputs: seq<Input>, settings: Settings, o: ObservationRow) {
    forall n :: 0 <= n <= |inputs| ==> StoredCopies(inputs[..n], settings, o) <= StoredCopies(inputs, settings, o)
  }

  lemma {:induction false} RecentIsNeverLost(inputs: seq<Input>, settings: Settings, o: ObservationRow, latest: int)
    requires SweptBy(inputs, latest) && o.observedAt >= latest - settings.retention
    ensures NeverLost(inputs, settings, o)
  {
    forall n | 0 <= n <= |inputs| ensures StoredCopies(inputs[..n], settings, o) <= StoredCopies(inputs, settings, o) {
      CopiesKept(inputs, settings, n, o, latest);
    }
  }

  /** Nothing recent is lost: while the clock does not run backwards, an observation made within the retention
      before the last turn is stored as often as it was at any moment before. */
  lemma {:induction false} RecentEvidenceIsKept(turns: seq<Turn>, settings: Settings, o: ObservationRow)
    requires turns != [] && TurnsOrdered(turns) && forall i :: 0 <= i < |turns| ==> Reports(turns[i].reports)
    requires o.observedAt >= turns[|turns| - 1].now - settings.retention
    ensures NeverLost(InputsOf(turns, settings), settings, o)
  {
    SweepsInTurns(turns, settings, turns[|turns| - 1].now);
    RecentIsNeverLost(InputsOf(turns, settings), settings, o, turns[|turns| - 1].now);
  }
}
