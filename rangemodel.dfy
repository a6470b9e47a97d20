/** The multi-camera range imaging model: the names of its line lasers, and
    the linear transport of a target through a laser's plane. */
module RangeModels {
  import opened Runtime
  import opened Lasers

  /** What is stored under a key of the model: a line laser, or some other
      scene object. */
  datatype Item = LaserItem(laser: LineLaser) | OtherItem

  /** The laser names after storing `value` under `key`: the key is added
      when the value is a laser. Storing a non-laser under a key that named a
      laser leaves the key in the set. */
  function AfterSet(lasers: set<string>, key: string, value: Item): (r: set<string>)
    ensures value.LaserItem? ==> key in r
    ensures forall k :: k != key ==> (k in r <==> k in lasers)
    ensures value.OtherItem? ==> r == lasers
  {
    if value.LaserItem? then lasers + {key} else lasers
  }

  /** The laser names after deleting `key`: the key is gone if it was there,
      and deleting a missing key is no error. */
  function AfterDelete(lasers: set<string>, key: string): (r: set<string>)
    ensures key !in r
    ensures forall k :: k != key ==> (k in r <==> k in lasers)
  {
    lasers - {key}
  }

  /** Storing a laser is idempotent, and deleting undoes it: what remains is
      what was there before, without the key. */
  lemma SetThenDelete(lasers: set<string>, key: string, l: LineLaser)
    ensures AfterSet(AfterSet(lasers, key, LaserItem(l)), key, LaserItem(l)) == AfterSet(lasers, key, LaserItem(l))
    ensures AfterDelete(AfterSet(lasers, key, LaserItem(l)), key) == AfterDelete(lasers, key)
    ensures key !in lasers ==> AfterDelete(AfterSet(lasers, key, LaserItem(l)), key) == lasers
  {
  }

  class RangeModel {
    /** The keys under which line lasers were stored. */
    var lasers: set<string>

    constructor()
      ensures lasers == {}
    {
      lasers := {};
    }

    /** `model[key] = value`, as far as the laser names are concerned. */
    method SetItem(key: string, value: Item)
      modifies this
      ensures lasers == AfterSet(old(lasers), key, value)
    {
      if value.LaserItem? {
        lasers := lasers + {key};
      }
    }

    /** `del model[key]`, as far as the laser names are concerned. */
    method DelItem(key: string)
      modifies this
      ensures lasers == AfterDelete(old(lasers), key)
    {
      lasers := lasers - {key};
    }

    /** The linear transport of `range_coverage`. The target's vertices (in
        world coordinates, triangle by triangle) are projected on the
        transport axis `taxis`; the target is then placed, step by step, at
        the offsets `tpitch * i - gv` along the axis, where `lv` and `gv` are
        the least and greatest projections. The result is that sequence of
        offsets, or the exception the source raises: a ValueError for the
        rotary style (not implemented) and for any other style, a division by
        zero for a zero pitch, and an overflow when the target has no vertex
        (the extent is then infinite). */
    method RangeCoverage(tstyle: string, tpitch: real, taxis: Vec, triangles: seq<seq<Vec>>)
      returns (r: Result<seq<real>>)
      ensures tstyle == "linear" ==> r == Transport(tpitch, Extent(Projections(taxis, triangles)))
      ensures tstyle == "rotary" ==> r == Err(ValueError("rotary transport style not yet implemented"))
      ensures tstyle != "linear" && tstyle != "rotary" ==>
        r == Err(ValueError("transport style must be 'linear' or 'rotary'"))
    {
      if tstyle == "linear" {
        var lv, gv := Bounds(taxis, triangles);
        r := Transport(tpitch, if lv.Some? then Some((lv.value, gv.value)) else None);
      } else if tstyle == "rotary" {
        r := Err(ValueError("rotary transport style not yet implemented"));
      } else {
        r := Err(ValueError("transport style must be 'linear' or 'rotary'"));
      }
    }

    /** The min/max fold over every vertex of every triangle; `None` stands
        for the infinite starting values. */
    method Bounds(taxis: Vec, triangles: seq<seq<Vec>>) returns (lv: Option<real>, gv: Option<real>)
      ensures lv == Least(Projections(taxis, triangles))
      ensures gv == Greatest(Projections(taxis, triangles))
      ensures lv.Some? <==> gv.Some?
      ensures (if lv.Some? then Some((lv.value, gv.value)) else None) == Extent(Projections(taxis, triangles))
    {
      lv, gv := None, None;
      for t := 0 to |triangles|
        invariant lv == Least(Projections(taxis, triangles[..t]))
        invariant gv == Greatest(Projections(taxis, triangles[..t]))
      {
        ghost var done := Projections(taxis, triangles[..t]);
        var vertices := triangles[t];
        assert done + Dots(taxis, vertices[..0]) == done;
        for v := 0 to |vertices|
          invariant lv == Least(done + Dots(taxis, vertices[..v]))
          invariant gv == Greatest(done + Dots(taxis, vertices[..v]))
        {
          var pv := Dot(taxis, vertices[v]);
          assert vertices[..v + 1][..v] == vertices[..v];
          assert done + Dots(taxis, vertices[..v + 1]) == (done + Dots(taxis, vertices[..v])) + [pv];
          lv := Some(if lv.Some? then Min(lv.value, pv) else pv);
          gv := Some(if gv.Some? then Max(gv.value, pv) else pv);
        }
        assert vertices[..|vertices|] == vertices;
        assert triangles[..t + 1][..t] == triangles[..t];
      }
      assert triangles[..|triangles|] == triangles;
      LeastGreatestAgree(Projections(taxis, triangles));
    }
  }

  /** The product of two vectors: the projection of a vertex on the axis. */
  function Dot(a: Vec, b: Vec): real {
    a.x * b.x + a.y * b.y + a.z * b.z
  }

  /** The projections of some vertices, in order. */
  function Dots(taxis: Vec, vertices: seq<Vec>): (ps: seq<real>)
    ensures |ps| == |vertices|
    ensures forall i :: 0 <= i < |vertices| ==> ps[i] == Dot(taxis, vertices[i])
  {
    if |vertices| == 0 then [] else Dots(taxis, vertices[..|vertices| - 1]) + [Dot(taxis, vertices[|vertices| - 1])]
  }

  /** The projections of all vertices of all triangles, triangle by triangle. */
  function Projections(taxis: Vec, triangles: seq<seq<Vec>>): seq<real>
  {
    if |triangles| == 0 then []
    else Projections(taxis, triangles[..|triangles| - 1]) + Dots(taxis, triangles[|triangles| - 1])
  }

  /** A projection belongs to the list exactly when it is the projection of
      some vertex of some triangle. */
  lemma {:induction false} ProjectionsMembers(taxis: Vec, triangles: seq<seq<Vec>>, p: real)
    ensures p in Projections(taxis, triangles) <==>
      exists t, v :: 0 <= t < |triangles| && 0 <= v < |triangles[t]| && p == Dot(taxis, triangles[t][v])
  {
    if |triangles| > 0 {
      var init, last := triangles[..|triangles| - 1], triangles[|triangles| - 1];
      ProjectionsMembers(taxis, init, p);
      assert forall t :: 0 <= t < |init| ==> init[t] == triangles[t];
      if p in Projections(taxis, init) {
        var t, v :| 0 <= t < |init| && 0 <= v < |init[t]| && p == Dot(taxis, init[t][v]);
        assert 0 <= t < |triangles| && 0 <= v < |triangles[t]| && p == Dot(taxis, triangles[t][v]);
      } else if p in Dots(taxis, last) {
        var v :| 0 <= v < |last| && Dots(taxis, last)[v] == p;
        assert p == Dot(taxis, triangles[|triangles| - 1][v]);
      } else {
        forall t, v | 0 <= t < |triangles| && 0 <= v < |triangles[t]|
          ensures p != Dot(taxis, triangles[t][v])
        {
          if t < |init| {
            assert triangles[t][v] == init[t][v];
          } else {
            assert Dots(taxis, last)[v] == Dot(taxis, triangles[t][v]);
          }
        }
      }
    }
  }

  function Min(a: real, b: real): real {
    if a <= b then a else b
  }

  function Max(a: real, b: real): real {
    if a >= b then a else b
  }

  /** `min` folded from positive infinity (`None`). */
  function Least(ps: seq<real>): Option<real>
  {
    if |ps| == 0 then None
    else
      var m := Least(ps[..|ps| - 1]);
      Some(if m.Some? then Min(m.value, ps[|ps| - 1]) else ps[|ps| - 1])
  }

  /** `max` folded from negative infinity (`None`). */
  function Greatest(ps: seq<real>): Option<real>
  {
    if |ps| == 0 then None
    else
      var m := Greatest(ps[..|ps| - 1]);
      Some(if m.Some? then Max(m.value, ps[|ps| - 1]) else ps[|ps| - 1])
  }

  /** The least projection is below or at every projection and is one of
      them; likewise the greatest; both are infinite only for no vertex. */
  lemma {:induction false} LeastGreatestBound(ps: seq<real>)
    ensures Least(ps).None? <==> |ps| == 0
    ensures Greatest(ps).None? <==> |ps| == 0
    ensures Least(ps).Some? ==> Least(ps).value in ps && forall p :: p in ps ==> Least(ps).value <= p
    ensures Greatest(ps).Some? ==> Greatest(ps).value in ps && forall p :: p in ps ==> p <= Greatest(ps).value
  {
    if |ps| > 0 {
      var init := ps[..|ps| - 1];
      LeastGreatestBound(init);
      assert ps == init + [ps[|ps| - 1]];
    }
  }

  lemma LeastGreatestAgree(ps: seq<real>)
    ensures Least(ps).Some? <==> Greatest(ps).Some?
  {
    LeastGreatestBound(ps);
  }

  /** The extent `(lv, gv)` of the projections, or `None` when there are none. */
  function Extent(ps: seq<real>): (e: Option<(real, real)>)
    ensures e.None? <==> |ps| == 0
    ensures e.Some? ==> e.value.0 in ps && e.value.1 in ps
    ensures e.Some? ==> forall p :: p in ps ==> e.value.0 <= p <= e.value.1
  {
    LeastGreatestBound(ps);
    if Least(ps).Some? then Some((Least(ps).value, Greatest(ps).value)) else None
  }

  /** The offsets along the axis at which the target is placed:
      `tpitch * i - gv` for `i` in `range(int((gv - lv) / tpitch))`. */
  function Transport(tpitch: real, extent: Option<(real, real)>): (r: Result<seq<real>>)
    ensures tpitch == 0.0 ==> r == Err(ZeroDivisionError)
    ensures tpitch != 0.0 && extent.None? ==> r == Err(OverflowError)
    ensures r.Ok? <==> tpitch != 0.0 && extent.Some?
  {
    if tpitch == 0.0 then Err(ZeroDivisionError)
    else if extent.None? then Err(OverflowError)
    else
      var (lv, gv) := extent.value;
      var steps := Trunc((gv - lv) / tpitch);
      Ok(seq(if steps > 0 then steps else 0, i => (i as real) * tpitch - gv))
  }

  /** With a positive pitch, every placement puts the target across the
      laser's plane through the origin: after the shift by the offset its
      nearest vertex lies before the plane and its farthest at or past it.
      The number of placements is `int((gv - lv) / tpitch)`. */
  lemma TransportCrossesPlane(tpitch: real, lv: real, gv: real)
    requires tpitch > 0.0 && lv <= gv
    ensures Transport(tpitch, Some((lv, gv))).Ok?
    ensures |Transport(tpitch, Some((lv, gv))).value| == Trunc((gv - lv) / tpitch)
    ensures forall i :: 0 <= i < |Transport(tpitch, Some((lv, gv))).value| ==>
      var off := Transport(tpitch, Some((lv, gv))).value[i];
      lv + off < 0.0 <= gv + off
  {
    var q := (gv - lv) / tpitch;
    DivCompare(0.0, gv - lv, tpitch);
    assert 0.0 / tpitch == 0.0;
    var offs := Transport(tpitch, Some((lv, gv))).value;
    forall i | 0 <= i < |offs|
      ensures lv + offs[i] < 0.0 <= gv + offs[i]
    {
      var k := i as real;
      assert offs[i] == k * tpitch - gv;
      MulBelowDiv(k + 1.0, gv - lv, tpitch);
      MulOrder(0.0, k, tpitch);
      MulSucc(k, tpitch);
      Across(lv, gv, tpitch, k * tpitch, (k + 1.0) * tpitch);
    }
  }

  /** The arithmetic of one placement: shifted by `a - gv`, the extent
      `[lv, gv]` straddles 0 when `0 <= a` and `a + tpitch <= gv - lv`. */
  lemma Across(lv: real, gv: real, tpitch: real, a: real, b: real)
    requires tpitch > 0.0 && 0.0 <= a && b == a + tpitch && b <= gv - lv
    ensures lv + (a - gv) < 0.0 <= gv + (a - gv)
  {
  }
}
