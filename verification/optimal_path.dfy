/**
 The "optimal path" drawn on the campus map for the selected courses.

 Routing is a placeholder that keeps the selection order. The path is drawn
 as one connector per pair of consecutive items, from the centre of one
 item's classroom to the centre of the next. Looking up an unknown building
 or classroom fails part way through the drawing loop; the connectors drawn
 before that stay on the map.
 */
module OptimalPath {
  import opened Selection
  import opened Campus

  /** A connector between two classroom centres. */
  datatype Segment = Segment(start: Point, end: Point)

  /** What asking for the path does: either the "select at least one course"
      alert, with the map left as it was, or the connectors now on the map and
      whether the drawing loop stopped at a failed lookup. */
  datatype Outcome = NoSelectionAlert | Rendered(segments: seq<Segment>, aborted: bool)

  /** The item's building and classroom are both in the campus description. */
  predicate Locates(campus: CampusData, item: SelectedCourse)
  {
    item.building in campus.buildings &&
    item.classroom in campus.buildings[item.building].classrooms
  }

  /** The centre of the item's classroom on the map. */
  function CentreOf(campus: CampusData, item: SelectedCourse): Point
    requires Locates(campus, item)
  {
    var b := campus.buildings[item.building];
    Centre(b, b.classrooms[item.classroom])
  }

  /** Iteration `i` of the drawing loop fails: it looks up the building of
      item `i`, and, when a next item exists, the next item's building and
      both classrooms. A last item whose classroom is unknown draws no
      connector and so does not fail. */
  predicate FailsAt(campus: CampusData, path: seq<SelectedCourse>, i: nat)
    requires i < |path|
  {
    path[i].building !in campus.buildings ||
    (i + 1 < |path| && !(Locates(campus, path[i]) && Locates(campus, path[i + 1])))
  }

  /** `s` is the connector from the classroom centre of item `i` to that of item `i + 1`. */
  predicate Connects(campus: CampusData, path: seq<SelectedCourse>, i: nat, s: Segment)
  {
    i + 1 < |path| && Locates(campus, path[i]) && Locates(campus, path[i + 1]) &&
    s == Segment(CentreOf(campus, path[i]), CentreOf(campus, path[i + 1]))
  }

  /** What drawing `path` leaves on the map: connector `i` joins items `i` and
      `i + 1`; the loop is aborted exactly when some iteration fails, and then
      at the first failing iteration, which is the number of connectors
      drawn; otherwise a path of n >= 1 items gets n - 1 connectors. */
  predicate DrawnPath(campus: CampusData, path: seq<SelectedCourse>, segments: seq<Segment>, aborted: bool)
  {
    (forall i :: 0 <= i < |segments| ==> Connects(campus, path, i, segments[i])) &&
    (aborted <==> exists i :: 0 <= i < |path| && FailsAt(campus, path, i)) &&
    (aborted ==> |segments| < |path| && FailsAt(campus, path, |segments|)) &&
    (!aborted ==> |segments| == if |path| == 0 then 0 else |path| - 1)
  }

  /** The routing placeholder: the path visits the selected courses in the
      order they were selected. */
  function FindShortestPath(courses: seq<SelectedCourse>): (path: seq<SelectedCourse>)
    ensures |path| == |courses|
    ensures forall i :: 0 <= i < |path| ==> path[i] == courses[i]
  {
    courses
  }

  /** Clears the previous path and draws a connector for each consecutive pair
      of items, stopping at the first lookup that fails. */
  method DisplayOptimalPath(campus: CampusData, path: seq<SelectedCourse>)
    returns (segments: seq<Segment>, aborted: bool)
    ensures DrawnPath(campus, path, segments, aborted)
  {
    segments, aborted := [], false;
    var index := 0;
    while index < |path|
      invariant 0 <= index <= |path|
      invariant forall i :: 0 <= i < index ==> !FailsAt(campus, path, i)
      invariant |segments| == if index == |path| && index > 0 then index - 1 else index
      invariant forall i :: 0 <= i < |segments| ==> Connects(campus, path, i, segments[i])
    {
      var course := path[index];
      if course.building !in campus.buildings {
        aborted := true;
        assert FailsAt(campus, path, index);
        return;
      }
      var buildingData := campus.buildings[course.building];
      if index < |path| - 1 {
        var nextCourse := path[index + 1];
        if nextCourse.building !in campus.buildings {
          aborted := true;
          assert FailsAt(campus, path, index);
          return;
        }
        var nextBuildingData := campus.buildings[nextCourse.building];
        if course.classroom !in buildingData.classrooms || nextCourse.classroom !in nextBuildingData.classrooms {
          aborted := true;
          assert FailsAt(campus, path, index);
          return;
        }
        var classroomData := buildingData.classrooms[course.classroom];
        var nextClassroomData := nextBuildingData.classrooms[nextCourse.classroom];
        var startX := buildingData.rect.x + classroomData.rect.x + classroomData.rect.width / 2.0;
        var startY := buildingData.rect.y + classroomData.rect.y + classroomData.rect.height / 2.0;
        var endX := nextBuildingData.rect.x + nextClassroomData.rect.x + nextClassroomData.rect.width / 2.0;
        var endY := nextBuildingData.rect.y + nextClassroomData.rect.y + nextClassroomData.rect.height / 2.0;
        segments := segments + [Segment(Point(startX, startY), Point(endX, endY))];
      }
      index := index + 1;
    }
  }

  /** The "find path" button: an empty selection raises the alert and draws
      nothing; otherwise the selection is routed and drawn. */
  method CalculateOptimalPath(campus: CampusData, selected: seq<SelectedCourse>) returns (r: Outcome)
    ensures r.NoSelectionAlert? <==> selected == []
    ensures r.Rendered? ==> DrawnPath(campus, FindShortestPath(selected), r.segments, r.aborted)
  {
    if |selected| == 0 {
      return NoSelectionAlert;
    }
    var optimalPath := FindShortestPath(selected);
    var segments, aborted := DisplayOptimalPath(campus, optimalPath);
    r := Rendered(segments, aborted);
  }

  /** What is drawn for a path is determined by the path and the campus. */
  lemma DrawnPathUnique(campus: CampusData, path: seq<SelectedCourse>,
                        s1: seq<Segment>, a1: bool, s2: seq<Segment>, a2: bool)
    requires DrawnPath(campus, path, s1, a1)
    requires DrawnPath(campus, path, s2, a2)
    ensures s1 == s2 && a1 == a2
  {
    assert forall i :: 0 <= i < |s1| ==> !FailsAt(campus, path, i) by {
      forall i | 0 <= i < |s1| ensures !FailsAt(campus, path, i) {
        assert Connects(campus, path, i, s1[i]);
      }
    }
    assert forall i :: 0 <= i < |s2| ==> !FailsAt(campus, path, i) by {
      forall i | 0 <= i < |s2| ensures !FailsAt(campus, path, i) {
        assert Connects(campus, path, i, s2[i]);
      }
    }
    assert |s1| == |s2|;
    forall i | 0 <= i < |s1|
      ensures s1[i] == s2[i]
    {
      assert Connects(campus, path, i, s1[i]) && Connects(campus, path, i, s2[i]);
    }
  }

  /** When every selected classroom is on the map, a path of n >= 1 items is
      drawn in full with n - 1 connectors; one item gets no connector. */
  lemma KnownClassroomsDrawnInFull(campus: CampusData, path: seq<SelectedCourse>,
                                   segments: seq<Segment>, aborted: bool)
    requires DrawnPath(campus, path, segments, aborted)
    requires |path| >= 1
    requires forall i :: 0 <= i < |path| ==> Locates(campus, path[i])
    ensures !aborted && |segments| == |path| - 1
  {
  }
}
