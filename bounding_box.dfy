/** Normalising the detector's facial area into the bounding box the analysis endpoint
    reports. */
module BoundingBox {
  import opened Wrappers

  /** A facial area as reported: numeric values under string keys. */
  type Area = map<string, real>

  datatype Box = Box(x: int, y: int, width: int, height: int)

  /** `int(v)` on a number: truncation toward zero. */
  function Trunc(v: real): (n: int)
    ensures v >= 0.0 ==> n as real <= v < n as real + 1.0
    ensures v < 0.0 ==> n as real - 1.0 < v <= n as real
  {
    if v >= 0.0 then v.Floor else -((-v).Floor)
  }

  /** `area.get(key, default)`. */
  function Get(area: Area, key: string, default: real): real
  {
    if key in area then area[key] else default
  }

  /** The box of an area, or none for a missing or empty area or one without a positive
      width and height. "w" and "h" win over "width" and "height"; a missing x or y is 0. */
  function FormatBoundingBox(area: Option<Area>): (r: Option<Box>)
    ensures area.None? || area.value == map[] ==> r.None?
    ensures r.Some? ==> r.value.width > 0 && r.value.height > 0
    ensures area.Some? && area.value != map[] ==>
              var m := area.value;
              && (r.Some? <==> Get(m, "w", Get(m, "width", 0.0)) >= 1.0 && Get(m, "h", Get(m, "height", 0.0)) >= 1.0)
              && ("w" !in m && "width" !in m ==> r.None?)
              && ("h" !in m && "height" !in m ==> r.None?)
              && (r.Some? ==>
                    && r.value.x == (if "x" in m then Trunc(m["x"]) else 0)
                    && r.value.y == (if "y" in m then Trunc(m["y"]) else 0)
                    && r.value.width == Trunc(if "w" in m then m["w"] else m["width"])
                    && r.value.height == Trunc(if "h" in m then m["h"] else m["height"]))
  {
    match area
    case None => None
    case Some(m) =>
      if m == map[] then None
      else
        var x := Trunc(Get(m, "x", 0.0));
        var y := Trunc(Get(m, "y", 0.0));
        var w := Trunc(Get(m, "w", Get(m, "width", 0.0)));
        var h := Trunc(Get(m, "h", Get(m, "height", 0.0)));
        if w <= 0 || h <= 0 then None
        else Some(Box(x, y, w, h))
  }

  /** The area the endpoint reports for a box: `{"x", "y", "width", "height"}`. */
  function AreaOf(b: Box): Area
  {
    map["x" := b.x as real, "y" := b.y as real, "width" := b.width as real, "height" := b.height as real]
  }

  /** Formatting a reported box again gives the same box back, and a box comes back
      exactly when its width and height are positive. */
  lemma FormatReportedBox(b: Box)
    ensures FormatBoundingBox(Some(AreaOf(b))) == (if b.width > 0 && b.height > 0 then Some(b) else None)
  {
    var m := AreaOf(b);
    assert m["x"] == b.x as real && m["y"] == b.y as real;
    assert "w" !in m && "h" !in m && m != map[];
    assert Get(m, "w", Get(m, "width", 0.0)) == b.width as real;
    assert Get(m, "h", Get(m, "height", 0.0)) == b.height as real;
    TruncOfInt(b.x);
    TruncOfInt(b.y);
    TruncOfInt(b.width);
    TruncOfInt(b.height);
  }

  /** `int()` leaves a whole number unchanged. */
  lemma TruncOfInt(n: int)
    ensures Trunc(n as real) == n
  {
  }
}
