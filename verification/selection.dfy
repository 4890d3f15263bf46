/**
 The list of selected courses behind the course checkboxes.

 Every checkbox change delivers (checked, course, building, classroom).
 Checking appends a record while fewer than `MaxSelected` are held and
 otherwise resets the checkbox and alerts the user; unchecking drops every
 record of that course. There is no duplicate check: a course listed under
 two classrooms can be held twice, and one uncheck removes both.
 */
module Selection {

  /** The most records the list holds at once. */
  const MaxSelected: nat := 6

  /** One selected checkbox: a course and the room it is taught in. */
  datatype SelectedCourse = SelectedCourse(course: string, building: string, classroom: string)

  /** A checkbox change: its new checked state and the record it stands for. */
  datatype Toggle = Toggle(checked: bool, item: SelectedCourse)

  /** The list with every record of `course` dropped, keeping the others in order. */
  function Without(s: seq<SelectedCourse>, course: string): (r: seq<SelectedCourse>)
    ensures |r| <= |s|
    ensures forall x :: x in r <==> x in s && x.course != course
    ensures forall x :: multiset(r)[x] == if x.course == course then 0 else multiset(s)[x]
    ensures (forall x :: x in s ==> x.course != course) ==> r == s
  {
    if s == [] then []
    else
      var rest := Without(s[1..], course);
      assert s == [s[0]] + s[1..];
      if s[0].course == course then rest else [s[0]] + rest
  }

  /** The list after one checkbox change. */
  function Toggled(s: seq<SelectedCourse>, t: Toggle): seq<SelectedCourse>
  {
    if t.checked then
      if |s| < MaxSelected then s + [t.item] else s
    else
      Without(s, t.item.course)
  }

  /** The list after a sequence of checkbox changes, applied in order. */
  function AfterToggles(s: seq<SelectedCourse>, ts: seq<Toggle>): seq<SelectedCourse>
    decreases |ts|
  {
    if ts == [] then s else AfterToggles(Toggled(s, ts[0]), ts[1..])
  }

  /** Dropping a course from two lists joined is dropping it from each: order is kept. */
  lemma {:induction false} WithoutConcat(a: seq<SelectedCourse>, b: seq<SelectedCourse>, course: string)
    ensures Without(a + b, course) == Without(a, course) + Without(b, course)
  {
    if a == [] {
      assert a + b == b;
    } else {
      assert (a + b)[0] == a[0];
      assert (a + b)[1..] == a[1..] + b;
      WithoutConcat(a[1..], b, course);
    }
  }

  /** Starting from a list within capacity (the empty list, say), no sequence of
      checkbox changes takes it past `MaxSelected` records. */
  lemma {:induction false} TogglesKeepCapacity(s: seq<SelectedCourse>, ts: seq<Toggle>)
    requires |s| <= MaxSelected
    ensures |AfterToggles(s, ts)| <= MaxSelected
    decreases |ts|
  {
    if ts != [] {
      TogglesKeepCapacity(Toggled(s, ts[0]), ts[1..]);
    }
  }

  /** Checking a course the list does not hold and then unchecking it gives the
      list back, whether or not the check was refused at capacity. */
  lemma {:induction false} CheckThenUncheckRestores(s: seq<SelectedCourse>, item: SelectedCourse)
    requires forall x :: x in s ==> x.course != item.course
    ensures AfterToggles(s, [Toggle(true, item), Toggle(false, item)]) == s
  {
    var ts := [Toggle(true, item), Toggle(false, item)];
    var checked := Toggled(s, ts[0]);
    var done := Toggled(checked, ts[1]);
    assert AfterToggles(s, ts) == AfterToggles(checked, ts[1..]);
    assert AfterToggles(checked, ts[1..]) == AfterToggles(done, []) by {
      assert ts[1..][0] == ts[1] && ts[1..][1..] == [];
    }
    if |s| < MaxSelected {
      WithoutConcat(s, [item], item.course);
      assert [item][1..] == [];
      assert Without([item], item.course) == [];
    }
  }

  /** The same course checked under two classrooms is held twice: checking
      never looks for a record of the same course. */
  lemma {:induction false} DuplicateCourseHeldTwice(s: seq<SelectedCourse>, a: SelectedCourse, b: SelectedCourse)
    requires a.course == b.course
    requires |s| + 2 <= MaxSelected
    ensures AfterToggles(s, [Toggle(true, a), Toggle(true, b)]) == s + [a, b]
  {
    var two := [Toggle(true, a), Toggle(true, b)];
    var s1 := s + [a];
    assert AfterToggles(s, two) == AfterToggles(s1, two[1..]);
    assert AfterToggles(s1, two[1..]) == AfterToggles(s1 + [b], []) by {
      assert two[1..][0] == Toggle(true, b) && two[1..][1..] == [];
    }
    assert s1 + [b] == s + [a, b];
  }

  /** One uncheck of a course held twice removes both records. */
  lemma {:induction false} UncheckRemovesEveryRecord(s: seq<SelectedCourse>, a: SelectedCourse, b: SelectedCourse)
    requires a.course == b.course
    ensures Toggled(s + [a, b], Toggle(false, b)) == Without(s, a.course)
  {
    WithoutConcat(s, [a, b], a.course);
    assert Without([a, b], a.course) == [] by {
      assert [a, b][1..] == [b] && [b][1..] == [];
    }
  }

  /** The selection list the course checkboxes edit. */
  class SelectionList {
    var selected: seq<SelectedCourse>

    /** The list never holds more than `MaxSelected` records. */
    ghost predicate Valid()
      reads this
    {
      |selected| <= MaxSelected
    }

    /** The list starts empty. */
    constructor ()
      ensures Valid() && selected == []
    {
      selected := [];
    }

    /** A checked box: append its record while there is room; otherwise leave
        the list alone and report the box as unchecked again. */
    method Check(item: SelectedCourse) returns (checkbox: bool)
      requires Valid()
      modifies this
      ensures Valid()
      ensures checkbox <==> |old(selected)| < MaxSelected
      ensures checkbox ==> selected == old(selected) + [item]
      ensures !checkbox ==> selected == old(selected)
    {
      if |selected| < MaxSelected {
        selected := selected + [item];
        checkbox := true;
      } else {
        checkbox := false;
      }
    }

    /** An unchecked box: drop every record of its course. */
    method Uncheck(course: string)
      requires Valid()
      modifies this
      ensures Valid()
      ensures selected == Without(old(selected), course)
      ensures |selected| <= |old(selected)|
      ensures (forall x :: x in old(selected) ==> x.course != course) ==> selected == old(selected)
    {
      selected := Without(selected, course);
    }

    /** The checkbox change handler: `checked` is the box's new state; the
        results are the box's state afterwards and whether the capacity alert
        was raised. */
    method ToggleCourseSelection(checked: bool, course: string, building: string, classroom: string)
      returns (checkbox: bool, alerted: bool)
      requires Valid()
      modifies this
      ensures Valid()
      ensures selected == Toggled(old(selected), Toggle(checked, SelectedCourse(course, building, classroom)))
      ensures alerted <==> checked && |old(selected)| == MaxSelected
      ensures checkbox <==> checked && !alerted
    {
      if checked {
        checkbox := Check(SelectedCourse(course, building, classroom));
        alerted := !checkbox;
      } else {
        Uncheck(course);
        checkbox, alerted := false, false;
      }
    }
  }
}
