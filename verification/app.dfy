/** The App screen: the list of goals and the input fields from which a new
    goal is created (App.js). */
module App {
  import opened Numeric

  /** One goal record of the list. `targetTime` is the parsed target (labelled
      in hours on screen), `timeSpent` is a count of seconds, and the two dates
      are the already-formatted date strings stored in the record. */
  datatype Goal = Goal(
    id: string,
    activity: string,
    targetTime: nat,
    timeSpent: nat,
    startDate: string,
    endDate: string)

  /** What pressing "add goal" did. `NotNumeric` is the case in which the
      screen shows an alert. */
  datatype AddOutcome = EmptyInput | NotNumeric | Added

  /** The validation of addGoal, in the order the screen applies it: an empty
      field first, then a non-numeric target. */
  function Validate(activity: string, targetTime: string): (o: AddOutcome)
    ensures o == EmptyInput <==> activity == [] || targetTime == []
    ensures o == NotNumeric <==> activity != [] && targetTime != [] && !IsNumeric(targetTime)
    ensures o == Added <==> activity != [] && IsNumeric(targetTime)
  {
    if |activity| == 0 || |targetTime| == 0 then EmptyInput
    else if !IsNumeric(targetTime) then NotNumeric
    else Added
  }

  /** The validation as the screen writes it, restricted to targets made of
      digits and whitespace: an empty field, then `isNaN` of the target. */
  function ValidateAsWritten(activity: string, targetTime: string): (o: AddOutcome)
    requires IsDigitsAndSpaces(targetTime)
    ensures o == EmptyInput <==> activity == [] || targetTime == []
    ensures o == Added <==> activity != [] && targetTime != [] && !IsNaNAsWritten(targetTime)
  {
    if |activity| == 0 || |targetTime| == 0 then EmptyInput
    else if IsNaNAsWritten(targetTime) then NotNumeric
    else Added
  }

  /** A whitespace-only target is accepted as written, and the goal built
      from it gets `parseInt(" ")`, which is NaN, as its target. */
  lemma BlankTargetAdded()
    ensures ValidateAsWritten("Reading", " ") == Added
    ensures ParseIntAsWritten(" ") == None
  {
    assert TrimStart(" ") == [];
  }

  /** Every target that Validate accepts is also accepted as written and
      parses to a number, namely its decimal value. */
  lemma ValidateAcceptsParsable(activity: string, targetTime: string)
    requires Validate(activity, targetTime) == Added
    ensures IsDigitsAndSpaces(targetTime) && ValidateAsWritten(activity, targetTime) == Added
    ensures ParseIntAsWritten(targetTime) == Some(ParseDecimal(targetTime))
  {
    NumericParses(targetTime);
  }

  /** The goal list after `updateGoalTime(id, t)`: every goal whose id is `id`
      gets `timeSpent := t`, in list order. */
  function WithTimeSpent(goals: seq<Goal>, id: string, t: nat): (r: seq<Goal>)
    ensures |r| == |goals|
    decreases |goals|
  {
    if goals == [] then []
    else
      var g := goals[0];
      [if g.id == id then g.(timeSpent := t) else g] + WithTimeSpent(goals[1..], id, t)
  }

  /** Position by position, WithTimeSpent replaces the time of the goals with
      the given id and leaves every other goal as it was. */
  lemma {:induction false} WithTimeSpentAt(goals: seq<Goal>, id: string, t: nat, i: nat)
    requires i < |goals|
    ensures goals[i].id == id ==> WithTimeSpent(goals, id, t)[i] == goals[i].(timeSpent := t)
    ensures goals[i].id != id ==> WithTimeSpent(goals, id, t)[i] == goals[i]
    decreases |goals|
  {
    if i > 0 {
      WithTimeSpentAt(goals[1..], id, t, i - 1);
    } else if |goals| > 1 {
      WithTimeSpentAt(goals[1..], id, t, 0);
    }
  }

  /** The same statement for the whole list at once: length and order are
      kept, ids, activities, targets and dates of every entry are kept, the
      entries with the id have time `t`, and the others are untouched. */
  lemma UpdatePreserves(goals: seq<Goal>, id: string, t: nat)
    ensures |WithTimeSpent(goals, id, t)| == |goals|
    ensures forall i :: 0 <= i < |goals| ==>
      var r := WithTimeSpent(goals, id, t)[i];
      && r.id == goals[i].id
      && r.activity == goals[i].activity
      && r.targetTime == goals[i].targetTime
      && r.startDate == goals[i].startDate
      && r.endDate == goals[i].endDate
      && (goals[i].id == id ==> r.timeSpent == t)
      && (goals[i].id != id ==> r == goals[i])
  {
    forall i | 0 <= i < |goals|
      ensures var r := WithTimeSpent(goals, id, t)[i];
        && r.id == goals[i].id
        && r.activity == goals[i].activity
        && r.targetTime == goals[i].targetTime
        && r.startDate == goals[i].startDate
        && r.endDate == goals[i].endDate
        && (goals[i].id == id ==> r.timeSpent == t)
        && (goals[i].id != id ==> r == goals[i])
    {
      WithTimeSpentAt(goals, id, t, i);
    }
  }

  /** Some record of the list has the id. */
  predicate HasId(goals: seq<Goal>, id: string) {
    exists i :: 0 <= i < |goals| && goals[i].id == id
  }

  /** An update addressed to an id that is not in the list changes nothing. */
  lemma {:induction false} UpdateAbsent(goals: seq<Goal>, id: string, t: nat)
    requires !HasId(goals, id)
    ensures WithTimeSpent(goals, id, t) == goals
    decreases |goals|
  {
    if goals != [] {
      assert goals[0].id != id;
      assert !HasId(goals[1..], id) by {
        forall i | 0 <= i < |goals[1..]| ensures goals[1..][i].id != id {
          assert goals[1..][i] == goals[i + 1];
        }
      }
      UpdateAbsent(goals[1..], id, t);
      assert goals == [goals[0]] + goals[1..];
    }
  }

  /** Only the last report for an id matters: two updates in a row amount to
      the second one. */
  lemma {:induction false} UpdateLastWins(goals: seq<Goal>, id: string, a: nat, b: nat)
    ensures WithTimeSpent(WithTimeSpent(goals, id, a), id, b) == WithTimeSpent(goals, id, b)
    decreases |goals|
  {
    if goals != [] {
      var once := WithTimeSpent(goals, id, a);
      assert once[1..] == WithTimeSpent(goals[1..], id, a);
      UpdateLastWins(goals[1..], id, a, b);
    }
  }

  /** Updating the list after an append is updating the old list and the
      appended goal separately: an earlier goal is never affected by the goal
      added after it, and vice versa. */
  lemma {:induction false} UpdateAppend(goals: seq<Goal>, g: Goal, id: string, t: nat)
    ensures WithTimeSpent(goals + [g], id, t)
         == WithTimeSpent(goals, id, t) + [if g.id == id then g.(timeSpent := t) else g]
    decreases |goals|
  {
    if goals == [] {
      assert [g][1..] == [];
    } else {
      assert (goals + [g])[1..] == goals[1..] + [g];
      UpdateAppend(goals[1..], g, id, t);
    }
  }

  /** A time report never removes an id from the list. */
  lemma UpdateKeepsIds(goals: seq<Goal>, id: string, t: nat, kept: string)
    requires HasId(goals, kept)
    ensures HasId(WithTimeSpent(goals, id, t), kept)
  {
    var i :| 0 <= i < |goals| && goals[i].id == kept;
    WithTimeSpentAt(goals, id, t, i);
  }

  /** Appending a goal never removes an id from the list. */
  lemma AppendKeepsIds(goals: seq<Goal>, g: Goal, kept: string)
    requires HasId(goals, kept)
    ensures HasId(goals + [g], kept)
  {
    var i :| 0 <= i < |goals| && goals[i].id == kept;
    assert (goals + [g])[i] == goals[i];
  }

  /** Every record with the id carries the count `t`. */
  predicate SyncedIn(goals: seq<Goal>, id: string, t: nat) {
    forall i :: 0 <= i < |goals| && goals[i].id == id ==> goals[i].timeSpent == t
  }

  /** The report of one goal's timer keeps every other goal's record in step
      with its own timer: reports for different ids do not interfere. */
  lemma OtherUpdateKeepsSync(goals: seq<Goal>, id: string, t: nat, other: string, u: nat)
    requires other != id && SyncedIn(goals, id, t)
    ensures SyncedIn(WithTimeSpent(goals, other, u), id, t)
  {
    var r := WithTimeSpent(goals, other, u);
    forall i | 0 <= i < |r| && r[i].id == id
      ensures r[i].timeSpent == t
    {
      WithTimeSpentAt(goals, other, u, i);
    }
  }

  /** Appending a goal with another id keeps a record in step with its timer. */
  lemma AppendKeepsSync(goals: seq<Goal>, id: string, t: nat, g: Goal)
    requires g.id != id && SyncedIn(goals, id, t)
    ensures SyncedIn(goals + [g], id, t)
  {
    forall i | 0 <= i < |goals + [g]| && (goals + [g])[i].id == id
      ensures (goals + [g])[i].timeSpent == t
    {
      assert i < |goals|;
    }
  }

  /** The state of the App component that goal creation and the time reports
      read and write. The date fields hold the formatted dates that the
      record will store. */
  class Screen {
    var goals: seq<Goal>
    var activity: string
    var targetTime: string
    var startDate: string
    var endDate: string

    /** The screen as first rendered: no goals, empty inputs, both dates today. */
    constructor (today: string)
      ensures goals == [] && activity == [] && targetTime == []
      ensures startDate == today && endDate == today
    {
      goals := [];
      activity := [];
      targetTime := [];
      startDate := today;
      endDate := today;
    }

    /** Typing into the two text inputs. */
    method SetActivity(text: string)
      modifies this
      ensures activity == text
      ensures goals == old(goals) && targetTime == old(targetTime)
      ensures startDate == old(startDate) && endDate == old(endDate)
    {
      activity := text;
    }

    method SetTargetTime(text: string)
      modifies this
      ensures targetTime == text
      ensures goals == old(goals) && activity == old(activity)
      ensures startDate == old(startDate) && endDate == old(endDate)
    {
      targetTime := text;
    }

    /** Pressing "add goal". `id` stands for the generated identifier and
      `today` for the date the pickers are reset to. On an empty field or a
      non-numeric target nothing changes; otherwise the new goal, with no
      time spent yet, is appended at the end and the inputs are cleared. */
    method AddGoal(id: string, today: string) returns (outcome: AddOutcome)
      modifies this
      ensures outcome == Validate(old(activity), old(targetTime))
      ensures outcome != Added ==>
        && goals == old(goals)
        && activity == old(activity) && targetTime == old(targetTime)
        && startDate == old(startDate) && endDate == old(endDate)
      ensures outcome == Added ==>
        && IsNumeric(old(targetTime))
        && goals == old(goals) + [Goal(id, old(activity), ParseDecimal(old(targetTime)), 0,
                                       old(startDate), old(endDate))]
        && activity == [] && targetTime == []
        && startDate == today && endDate == today
    {
      if |activity| == 0 || |targetTime| == 0 {
        return EmptyInput;
      }
      if !IsNumeric(targetTime) {
        return NotNumeric;
      }
      var newGoal := Goal(id, activity, ParseDecimal(targetTime), 0, startDate, endDate);
      goals := goals + [newGoal];
      activity := [];
      targetTime := [];
      startDate := today;
      endDate := today;
      return Added;
    }

    /** The time report of a goal's timer: the goals with that id get the new
      time, nothing else changes. */
    method UpdateGoalTime(id: string, newTime: nat)
      modifies this
      ensures goals == WithTimeSpent(old(goals), id, newTime)
      ensures activity == old(activity) && targetTime == old(targetTime)
      ensures startDate == old(startDate) && endDate == old(endDate)
    {
      goals := WithTimeSpent(goals, id, newTime);
    }
  }
}
