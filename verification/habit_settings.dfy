/**
 * The habit list in the settings dialog
 * (src/components/settings/HabitSettings.tsx): a local copy of the habits,
 * reset from the prop when it changes, edited by add, rename and remove;
 * every edit stores the new list and reports that same list upward.
 */
module HabitSettings {
  import opened Domain

  /** `addHabit`'s new entry; `id` is the clock reading `Date.now()` rendered as text. */
  function NewHabit(id: string): (h: Habit)
    ensures h.id == id && h.name == "New habit" && h.completedDays == []
  {
    Habit(id, "New habit", [])
  }

  /** `localHabits.map(h => h.id === id ? { ...h, name } : h)`. */
  function Renamed(habits: seq<Habit>, id: string, name: string): (r: seq<Habit>)
    ensures |r| == |habits|
    ensures forall i :: 0 <= i < |habits| && habits[i].id != id ==> r[i] == habits[i]
    ensures forall i :: 0 <= i < |habits| && habits[i].id == id ==> r[i] == habits[i].(name := name)
  {
    seq(|habits|, i requires 0 <= i < |habits| => if habits[i].id == id then habits[i].(name := name) else habits[i])
  }

  /** `localHabits.filter(h => h.id !== id)`. */
  function WithoutId(habits: seq<Habit>, id: string): (r: seq<Habit>)
    ensures |r| <= |habits|
    ensures forall i :: 0 <= i < |r| ==> r[i].id != id
  {
    if habits == [] then []
    else
      var rest := WithoutId(habits[1..], id);
      if habits[0].id == id then rest
      else
        var r := [habits[0]] + rest;
        assert forall i :: 1 <= i < |r| ==> r[i] == rest[i - 1];
        r
  }

  /** The filter keeps exactly the habits with another id. */
  lemma {:induction false} WithoutIdMembers(habits: seq<Habit>, id: string, h: Habit)
    ensures h in WithoutId(habits, id) <==> h in habits && h.id != id
  {
    if habits != [] {
      WithoutIdMembers(habits[1..], id, h);
      assert h in habits <==> h == habits[0] || h in habits[1..];
    }
  }

  /** The filter keeps the order: removing from a concatenation removes from each part. */
  lemma {:induction false} WithoutIdAppend(a: seq<Habit>, b: seq<Habit>, id: string)
    ensures WithoutId(a + b, id) == WithoutId(a, id) + WithoutId(b, id)
  {
    if a != [] {
      assert (a + b)[0] == a[0] && (a + b)[1..] == a[1..] + b;
      WithoutIdAppend(a[1..], b, id);
      var head := if a[0].id == id then [] else [a[0]];
      assert WithoutId(a, id) == head + WithoutId(a[1..], id);
      assert WithoutId(a + b, id) == head + (WithoutId(a[1..], id) + WithoutId(b, id));
    } else {
      assert a + b == b;
    }
  }

  /** Removing an id no habit has leaves the list as it is. */
  lemma {:induction false} WithoutAbsentId(habits: seq<Habit>, id: string)
    requires forall i :: 0 <= i < |habits| ==> habits[i].id != id
    ensures WithoutId(habits, id) == habits
  {
    if habits != [] {
      WithoutAbsentId(habits[1..], id);
    }
  }

  /** Removing the habit just added, under a fresh id, gives the list back. */
  lemma RemoveUndoesAdd(habits: seq<Habit>, id: string)
    requires forall i :: 0 <= i < |habits| ==> habits[i].id != id
    ensures WithoutId(habits + [NewHabit(id)], id) == habits
  {
    WithoutIdAppend(habits, [NewHabit(id)], id);
    WithoutAbsentId(habits, id);
  }

  /** A rename keeps every habit's id and ticked days; removing its id afterwards removes the same habits. */
  lemma RenameKeepsIdentity(habits: seq<Habit>, id: string, name: string, other: string)
    requires other != id
    ensures forall i :: 0 <= i < |habits| ==> Renamed(habits, id, name)[i].id == habits[i].id
    ensures forall i :: 0 <= i < |habits| ==> Renamed(habits, id, name)[i].completedDays == habits[i].completedDays
    ensures WithoutId(Renamed(habits, id, name), other) == Renamed(WithoutId(habits, other), id, name)
  {
    RenameCommutes(habits, id, name, other);
  }

  lemma {:induction false} RenameCommutes(habits: seq<Habit>, id: string, name: string, other: string)
    requires other != id
    ensures WithoutId(Renamed(habits, id, name), other) == Renamed(WithoutId(habits, other), id, name)
  {
    if habits != [] {
      var r := Renamed(habits, id, name);
      assert r == [r[0]] + Renamed(habits[1..], id, name);
      RenameCommutes(habits[1..], id, name, other);
      var w := WithoutId(habits, other);
      if habits[0].id != other {
        assert w == [habits[0]] + WithoutId(habits[1..], other);
        assert Renamed(w, id, name) == [r[0]] + Renamed(WithoutId(habits[1..], other), id, name);
      }
    }
  }

  class HabitList {
    /** `localHabits`. */
    var localHabits: seq<Habit>

    constructor (habits: seq<Habit>)
      ensures localHabits == habits
    {
      localHabits := habits;
    }

    /** The effect on the `habits` prop: the local copy follows the parent's list. */
    method Sync(habits: seq<Habit>)
      modifies this
      ensures localHabits == habits
    {
      localHabits := habits;
    }

    /** `addHabit`: one new habit at the end; the new list is stored and reported. */
    method AddHabit(id: string) returns (reported: seq<Habit>)
      modifies this
      ensures localHabits == old(localHabits) + [NewHabit(id)]
      ensures reported == localHabits
    {
      localHabits := localHabits + [NewHabit(id)];
      reported := localHabits;
    }

    /** `updateHabit`: the habits with that id renamed; the new list is stored and reported. */
    method UpdateHabit(id: string, name: string) returns (reported: seq<Habit>)
      modifies this
      ensures localHabits == Renamed(old(localHabits), id, name)
      ensures reported == localHabits
    {
      localHabits := Renamed(localHabits, id, name);
      reported := localHabits;
    }

    /** `removeHabit`: every habit with that id dropped; the new list is stored and reported. */
    method RemoveHabit(id: string) returns (reported: seq<Habit>)
      modifies this
      ensures localHabits == WithoutId(old(localHabits), id)
      ensures reported == localHabits
    {
      localHabits := WithoutId(localHabits, id);
      reported := localHabits;
    }
  }
}
