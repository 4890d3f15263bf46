# Campus map: course selection and path drawing

A model of the logic in `app.js` of the campus map page. The page lists
courses with checkboxes. The user may select up to six of them. The page then
draws a "path" on the map from each selected classroom to the next.

- `selection.dfy` (module `Selection`): the list of selected courses that the
  checkbox handler edits. It is a class `SelectionList` holding a `seq` of
  `(course, building, classroom)` records. `Check` appends a record while fewer
  than six are held. At capacity it leaves the list alone and reports the
  checkbox as unchecked again. `Uncheck` drops every record of the course.
  `ToggleCourseSelection` is the handler itself. It dispatches to `Check` or
  `Uncheck` and reports the capacity alert when a check was refused. Beside the class are
  the pure functions `Without` (the filter), `Toggled` (one change) and
  `AfterToggles` (a sequence of changes). The lemmas about many changes are
  stated with these.
- `campus.dfy` (module `Campus`): the campus description (buildings, hallways,
  classrooms, rectangles) and `Centre`, the absolute centre of a classroom.
  Coordinates are `real`, so halving a size is exact.
- `optimal_path.dfy` (module `OptimalPath`): `FindShortestPath`, the routing
  placeholder that returns the selection unchanged. `DisplayOptimalPath` is the
  drawing loop. It gives the connectors left on the map and whether the loop
  stopped at a failed lookup. `CalculateOptimalPath` is the button handler with
  its empty-selection guard. `DrawnPath` states what drawing a path leaves on
  the map. The loop is proved against it, and two lemmas are proved about it.

The global `selectedCourses` becomes the `selected` field of a
`SelectionList`. The global `campusData` becomes a `CampusData` parameter.
Checkbox state and alerts become results of the handlers. The checkbox
result is the box's state after the handler runs. The alert result says
whether the capacity alert was shown.

The code keeps no uniqueness of course ids, and the model follows the code.
A course taught in two classrooms has two checkboxes. Both can be checked,
so the list holds two records of that course, and one uncheck removes both
(`DuplicateCourseHeldTwice`, `UncheckRemovesEveryRecord`). The code also
raises no explicit "unknown location" error. A lookup of a missing building
or classroom throws part way through the drawing loop, and the connectors
drawn before that point stay on the map. `FailsAt` states which lookups
iteration `i` makes. A last item whose building is known but whose
classroom is not draws nothing and does not fail. The page itself never
reaches this abort path. Every checkbox, and so every record, is built from
the campus's own building and classroom keys (app.js:19-28), so every item of
a real selection is located. That is the case of `KnownClassroomsDrawnInFull`.
The abort path covers pairs of campus and path that the page does not
produce.

## Model

| member | source | states |
|---|---|---|
| `Selection.Without` | app.js:45 | Unchecking keeps exactly the records of other courses. Each one keeps its multiplicity, none of the unchecked course remains, the list never grows, and it is unchanged when no record has that course |
| `Selection.WithoutConcat` | app.js:45 | The filter keeps relative order: filtering a joined list is joining the filtered parts |
| `Selection.TogglesKeepCapacity` | app.js:36-48 | From a list of at most six records, the empty initial list included, no sequence of checkbox changes takes the list past six |
| `Selection.CheckThenUncheckRestores` | app.js:38-45 | Checking a course the list does not hold and then unchecking it restores the list, whether the check was accepted or refused at capacity |
| `Selection.DuplicateCourseHeldTwice` | app.js:38-39 | With room for two more, checking two records of the same course appends both: no duplicate check |
| `Selection.UncheckRemovesEveryRecord` | app.js:45 | One uncheck of a course held twice removes both records, leaving the earlier list filtered |
| `Selection.SelectionList.constructor` | app.js:3 | The selection starts empty |
| `Selection.SelectionList.Check` | app.js:38-43 | Below six records the item is appended at the end, the earlier records are unchanged and the box stays checked. At six the list is unchanged and the box is reset to unchecked. The capacity bound is kept |
| `Selection.SelectionList.Uncheck` | app.js:45 | The new list is the old one without the course's records. It is no longer than before and unchanged if the course was absent |
| `Selection.SelectionList.ToggleCourseSelection` | app.js:36-48 | The new list is one `Toggled` step from the old one. The alert is raised exactly when a check meets a full list. The box ends checked exactly when a check was accepted |
| `Campus.Centre` | app.js:174-177 | The absolute centre is equally far from the classroom's opposite edges on each axis, and lies inside the classroom when its sizes are not negative |
| `OptimalPath.FindShortestPath` | app.js:125-128 | The path has the selection's items in the selection's order |
| `OptimalPath.DisplayOptimalPath` | app.js:131-192 | Connector i runs from the centre of item i to the centre of item i+1. The loop aborts exactly when some lookup fails, and then at the first failing iteration, which equals the number of connectors drawn. Otherwise n items get n-1 connectors, so one item gets none |
| `OptimalPath.CalculateOptimalPath` | app.js:114-122 | The alert is raised, and nothing is drawn, exactly when the selection is empty. Otherwise the drawing is that of the selection in its own order |
| `OptimalPath.DrawnPathUnique` | app.js:141-191 | The drawing of a path is fully determined by the path and the campus |
| `OptimalPath.KnownClassroomsDrawnInFull` | app.js:169-177 | When every selected classroom exists, a path of n >= 1 items is drawn without abort and with exactly n-1 connectors |

## Left out

- Loading the campus description (`loadCampusData`, app.js:6-12) is left out. It fetches over the network and uses a foreign YAML parser. The campus is a parameter instead, and its numbers are assumed present (no `undefined`/NaN arithmetic).
- The DOM work is left out: the course list with its checkboxes, the selected-courses list, the campus map rectangles and the classroom pop-ups (`displayCourseList`, `updateSelectedCourses`, `displayCampusMap`, app.js:15-111, and the event wiring at app.js:195-197). It renders data and holds no logic beyond iteration.
- The `alert` dialogs are only results: a boolean in the handler, or the `NoSelectionAlert` outcome. Their text is not modelled.
- Connector `length` and `angle` (app.js:181-182) are left out. They are `Math.sqrt`/`Math.atan2` floating-point values, so connectors carry only their endpoints.
- Coordinates are exact reals. JavaScript's double rounding of the sums and halvings is not modelled.
- The numbered sequence labels and the text list of the path (app.js:142, 148-166) are left out. They are placed by re-scanning rendered elements.
- Removing the previous labels and connectors (app.js:139) is modelled only as "the returned connectors are what the map shows".
- The JavaScript object key order of buildings and classrooms is lost, because they are maps. It matters only to the rendering left out above.
- Other uncaught `TypeError`s are left out, such as a building whose `classrooms` table is missing. Pressing the button before the campus has loaded throws nothing. No checkbox exists yet, so the selection is empty and the guard at app.js:115-117 shows its alert (`NoSelectionAlert`).
