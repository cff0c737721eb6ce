/** The habit management screen: which habit the edit sheet targets (none
    for a new habit), the create-or-update rule of its `onSave`, and
    deletion, all through the home view model. Because the update goes
    through `insertHabit` (REPLACE), an edit is a delete followed by an
    insert under the same id, and the delete's SET NULL detaches the
    habit's existing logs. */
module HabitManagement {
  import opened Common
  import opened Models
  import opened EchoDao
  import opened Home
  import opened EditHabit

  /** The record `onSave` inserts: a new habit with a generated id created
      at `now`, or a copy of the edited habit keeping its id and creation
      time with the sheet's name, flag and colour. */
  function SavedHabit(selected: Option<Habit>, args: SaveArgs, now: int): (r: Habit)
    ensures r.name == args.name && r.isTimed == args.isTimed && r.color == args.color
    ensures selected.None? ==> r.id == GenerateId && r.createdAt == now
    ensures selected.Some? ==> r.id == selected.value.id && r.createdAt == selected.value.createdAt
  {
    if selected.None? then Habit(GenerateId, args.name, args.color, args.isTimed, now)
    else selected.value.(name := args.name, isTimed := args.isTimed, color := args.color)
  }

  /** Saving a new habit adds one row under a fresh id holding the sheet's
      fields, and leaves every other habit as it was. */
  lemma CreateAddsHabit(t: Tables, args: SaveArgs, now: int)
    requires Consistent(t)
    ensures var h := SavedHabit(None, args, now); var r := ReplaceHabit(t, h);
      var id := t.habitSeq + 1;
      !HasKey(t.habits, HabitKey, id)
      && |r.habits| == |t.habits| + 1
      && Lookup(r.habits, HabitKey, id) == Some(Habit(id, args.name, args.color, args.isTimed, now))
      && (forall k :: k != id ==> Lookup(r.habits, HabitKey, k) == Lookup(t.habits, HabitKey, k))
      && r.logs == t.logs && Consistent(r)
  {
    var h := SavedHabit(None, args, now);
    ReplaceHabitEffect(t, h);
    GeneratedIdFresh(t.habits, HabitKey, t.habitSeq);
  }

  /** Saving an edit of a stored habit keeps the number of habits, stores
      the edited record under the same id, and leaves the other habits as
      they were. */
  lemma EditKeepsCount(t: Tables, j: nat, args: SaveArgs, now: int)
    requires Consistent(t) && j < |t.habits| && t.habits[j].id != GenerateId
    ensures var edited := t.habits[j]; var r := ReplaceHabit(t, SavedHabit(Some(edited), args, now));
      |r.habits| == |t.habits|
      && Lookup(r.habits, HabitKey, edited.id) == Some(edited.(name := args.name, isTimed := args.isTimed, color := args.color))
      && (forall k :: k != edited.id ==> Lookup(r.habits, HabitKey, k) == Lookup(t.habits, HabitKey, k))
      && Consistent(r)
  {
    assert HasKey(t.habits, HabitKey, t.habits[j].id);
    ReplaceHabitEffect(t, SavedHabit(Some(t.habits[j]), args, now));
  }

  /** Editing a habit detaches its history: every log that referred to
      it loses the reference (keeping its name snapshot), so the habit no
      longer shows as completed today. */
  lemma EditDetachesHistory(t: Tables, j: nat, args: SaveArgs, now: int, startOfToday: int)
    requires Consistent(t) && j < |t.habits| && t.habits[j].id != GenerateId
    ensures var id := t.habits[j].id; var r := ReplaceHabit(t, SavedHabit(Some(t.habits[j]), args, now));
      |r.logs| == |t.logs|
      && (forall i :: 0 <= i < |t.logs| && t.logs[i].habitId == Some(id) ==>
            r.logs[i] == t.logs[i].(habitId := None))
      && j < |r.habits| && r.habits[j].id == id
      && !HabitStates(r, startOfToday)[j].isCompletedToday
  {
    var id := t.habits[j].id;
    var h := SavedHabit(Some(t.habits[j]), args, now);
    var r := ReplaceHabit(t, h);
    assert HasKey(t.habits, HabitKey, id);
    SetNullHabitEffect(t.logs, id);
    PutEffect(t.habits, HabitKey, h);
    LookupUnique(t.habits, HabitKey, j);
    HabitStatesSpec(r, startOfToday);
  }

  class HabitManagementScreen {
    const viewModel: HomeViewModel
    var showEditSheet: bool
    /** The edit target; `None` means a new habit. */
    var selectedHabit: Option<Habit>

    constructor (viewModel: HomeViewModel)
      ensures this.viewModel == viewModel && !showEditSheet && selectedHabit.None?
    {
      this.viewModel := viewModel;
      showEditSheet := false;
      selectedHabit := None;
    }

    /** The add button: open the sheet for a new habit. */
    method AddClicked()
      modifies this
      ensures selectedHabit.None? && showEditSheet
    {
      selectedHabit := None;
      showEditSheet := true;
    }

    /** A row's edit button: open the sheet on that habit. */
    method EditClicked(habit: Habit)
      modifies this
      ensures selectedHabit == Some(habit) && showEditSheet
    {
      selectedHabit := Some(habit);
      showEditSheet := true;
    }

    /** A row's delete button. */
    method DeleteClicked(habit: Habit)
      requires viewModel.store.Valid()
      modifies viewModel.store
      ensures viewModel.store.Valid()
      ensures viewModel.store.Snapshot() == RemoveHabit(old(viewModel.store.Snapshot()), habit.id)
    {
      viewModel.DeleteHabit(habit);
    }

    /** The sheet's `onDismiss`. */
    method Dismiss()
      modifies this
      ensures !showEditSheet && selectedHabit == old(selectedHabit)
    {
      showEditSheet := false;
    }

    /** The sheet's `onSave` at clock `now`: create or update the target. */
    method Save(args: SaveArgs, now: int)
      requires viewModel.store.Valid()
      modifies viewModel.store
      ensures viewModel.store.Valid()
      ensures viewModel.store.Snapshot() == ReplaceHabit(old(viewModel.store.Snapshot()), SavedHabit(selectedHabit, args, now))
    {
      viewModel.InsertHabit(SavedHabit(selectedHabit, args, now));
    }
  }
}
