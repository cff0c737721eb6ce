/** The create/edit habit sheet: its fields start from the edited habit
    (or blank for a new one), and Save hands the typed name, the timed flag
    and the fixed default colour to `onSave`, then dismisses, unless the
    name is blank. */
module EditHabit {
  import opened Common
  import opened Text
  import opened Models

  /** The colour every saved habit gets (`0xFFD0BCFF` as a Kotlin `Long`). */
  const DefaultColor: int := 0xFFD0BCFF

  /** The arguments of an `onSave(name, isTimed, color)` call. */
  datatype SaveArgs = SaveArgs(name: string, isTimed: bool, color: int)

  /** What Save does with the current fields: nothing for a blank name,
      otherwise `onSave` with the name exactly as typed. */
  function SaveOutcome(name: string, isTimed: bool): (r: Option<SaveArgs>)
    ensures r.None? <==> IsBlank(name)
    ensures r.Some? ==> r.value.name == name && r.value.isTimed == isTimed && r.value.color == DefaultColor
  {
    if IsBlank(name) then None else Some(SaveArgs(name, isTimed, DefaultColor))
  }

  /** The sheet's heading. */
  function Title(habit: Option<Habit>): (r: string)
    ensures habit.None? ==> r == "New Habit"
    ensures habit.Some? ==> r == "Edit Habit"
  {
    if habit.None? then "New Habit" else "Edit Habit"
  }

  class EditHabitSheet {
    const habit: Option<Habit>
    var name: string
    var isTimed: bool

    /** `habit?.name ?: ""` and `habit?.isTimed ?: false`. */
    constructor (habit: Option<Habit>)
      ensures this.habit == habit
      ensures habit.Some? ==> name == habit.value.name && isTimed == habit.value.isTimed
      ensures habit.None? ==> name == "" && !isTimed
    {
      this.habit := habit;
      name := if habit.Some? then habit.value.name else "";
      isTimed := if habit.Some? then habit.value.isTimed else false;
    }

    /** `onValueChange` of the name field. */
    method EditName(text: string)
      modifies this
      ensures name == text && isTimed == old(isTimed)
    {
      name := text;
    }

    /** `onCheckedChange` of the switch. */
    method SetTimed(checked: bool)
      modifies this
      ensures isTimed == checked && name == old(name)
    {
      isTimed := checked;
    }

    /** The Save button: returns the `onSave` call it makes, if any, and
        whether `onDismiss` follows it; a blank name makes neither call. */
    method SaveClicked() returns (saved: Option<SaveArgs>, dismissed: bool)
      ensures saved == SaveOutcome(name, isTimed)
      ensures dismissed <==> !IsBlank(name)
      ensures saved.Some? ==> saved.value == SaveArgs(name, isTimed, DefaultColor)
    {
      if IsBlank(name) {
        saved := None;
        dismissed := false;
      } else {
        saved := Some(SaveArgs(name, isTimed, DefaultColor));
        dismissed := true;
      }
    }
  }
}
