/**
 The campus description the map is drawn from: buildings placed on the map,
 each with hallways and classrooms placed relative to the building.
 Coordinates and sizes are pixels; they are modelled as reals so that the
 half sizes used for centres are exact.
 */
module Campus {

  /** A rectangle: top-left corner and size. */
  datatype Rect = Rect(x: real, y: real, width: real, height: real)

  /** A classroom: its rectangle relative to its building, and the courses taught in it. */
  datatype Classroom = Classroom(rect: Rect, courses: seq<string>)

  /** A building: its rectangle on the map, its hallways and its classrooms by name. */
  datatype Building = Building(rect: Rect, hallways: seq<Rect>, classrooms: map<string, Classroom>)

  /** The whole campus: its buildings by name. */
  datatype CampusData = CampusData(buildings: map<string, Building>)

  /** A point on the map. */
  datatype Point = Point(x: real, y: real)

  /** The centre of a classroom on the map: the building's offset plus the
      classroom's offset plus half the classroom's size, on each axis. It is
      equally far from the classroom's left and right edges and from its top
      and bottom edges, and lies inside the classroom when the sizes are not
      negative. */
  function Centre(b: Building, c: Classroom): (p: Point)
    ensures p.x - (b.rect.x + c.rect.x) == (b.rect.x + c.rect.x + c.rect.width) - p.x
    ensures p.y - (b.rect.y + c.rect.y) == (b.rect.y + c.rect.y + c.rect.height) - p.y
    ensures c.rect.width >= 0.0 ==> b.rect.x + c.rect.x <= p.x <= b.rect.x + c.rect.x + c.rect.width
    ensures c.rect.height >= 0.0 ==> b.rect.y + c.rect.y <= p.y <= b.rect.y + c.rect.y + c.rect.height
  {
    Point(b.rect.x + c.rect.x + c.rect.width / 2.0, b.rect.y + c.rect.y + c.rect.height / 2.0)
  }
}
