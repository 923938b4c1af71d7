/** The catalogue of small bodies and the `bodies` table of
    src/smallBodies.js: `createSmallBodyMeshes` (lines 139-156) registers
    every catalogued body under its lower-cased name with the index of its
    initial state in the gravity simulator's list, and
    `updateSmallBodyPositions` (lines 198-209) moves every registered body to
    the simulator's state at that index. */
module SmallBodies {
  import opened External
  import opened Geometry
  import opened Kepler
  import opened StateVectors
  import opened OrbitPath

  // ---------------------------------------------------------------------------
  // The catalogue

  /** One entry of SMALL_BODIES: display name, elements and colour (an RGB
      integer). */
  datatype Catalogued = Catalogued(name: string, elements: Elements, color: nat)

  /** SMALL_BODIES (lines 9-62): Ceres, Vesta, Halley and NEOWISE. */
  const Catalogue: seq<Catalogued> := [
    Catalogued("Ceres",
      Elements(2.769289292143484, 0.07687465013145245, 10.59127767086216, 80.3011901917491,
               73.80896808746482, 130.3159688200986, 2458849.5), 0xbcbcbc),
    Catalogued("Vesta",
      Elements(2.361908654291772, 0.08857261385730482, 7.14181494423702, 103.8092892453337,
               150.8357762126256, 163.3754032354997, 2458849.5), 0xd8d8d8),
    Catalogued("Halley",
      Elements(17.93003431157555, 0.9679221169240834, 162.1951462980701, 59.07198712310091,
               112.2128395742619, 274.8113481508292, 2439907.5), 0xff8800),
    Catalogued("NEOWISE",
      Elements(358.4679565529321, 0.9991780262531292, 128.9375027594809, 61.01042818536988,
               37.2786584481257, 0.0003370720801209784, 2459036.5), 0xffaa55)
  ]

  /** The radius of every body's sphere (line 144). */
  const SphereRadius: real := 0.05

  /** Every catalogued orbit is an ellipse, so the kernel's formulas apply to
      all of them. */
  lemma CatalogueElliptic()
    ensures forall k :: 0 <= k < |Catalogue| ==> Elliptic(Catalogue[k].elements)
  {
  }

  // ---------------------------------------------------------------------------
  // Names

  /** `toLowerCase` on one character, for the ASCII letters the names use. */
  function LowerChar(c: char): char {
    if 'A' <= c <= 'Z' then (c as int + 32) as char else c
  }

  function ToLower(s: string): string {
    seq(|s|, i requires 0 <= i < |s| => LowerChar(s[i]))
  }

  /** Lower-casing leaves no capital letter and is idempotent. */
  lemma LowerIsLower(s: string)
    ensures |ToLower(s)| == |s|
    ensures forall i :: 0 <= i < |s| ==> !('A' <= ToLower(s)[i] <= 'Z')
    ensures ToLower(ToLower(s)) == ToLower(s)
  {
  }

  /** The key under which `bodies` holds each simulator reference (line 153),
      and which the update loop skips (line 204). */
  const SimKey: string := "_sim"

  /** The catalogue's keys are the lower-cased names; they are pairwise
      distinct and none of them is the simulator's key. */
  lemma CatalogueKeys()
    ensures ToLower(Catalogue[0].name) == "ceres"
    ensures ToLower(Catalogue[1].name) == "vesta"
    ensures ToLower(Catalogue[2].name) == "halley"
    ensures ToLower(Catalogue[3].name) == "neowise"
    ensures forall j, k :: 0 <= j < k < |Catalogue| ==> ToLower(Catalogue[j].name) != ToLower(Catalogue[k].name)
    ensures forall k :: 0 <= k < |Catalogue| ==> ToLower(Catalogue[k].name) != SimKey
  {
    assert ToLower("Ceres") == "ceres";
    assert ToLower("Vesta") == "vesta";
    assert ToLower("Halley") == "halley";
    assert ToLower("NEOWISE") == "neowise";
  }

  // ---------------------------------------------------------------------------
  // The simulator's records and the `bodies` table

  /** The time of interest: its Julian Day and its date (as a time value). */
  datatype TimeOfInterest = TimeOfInterest(julianDay: real, date: real)

  /** astronomy-engine's `StateVector(x, y, z, vx, vy, vz, t)`. */
  datatype SimState = SimState(x: real, y: real, z: real, vx: real, vy: real, vz: real, t: real)

  /** A value of the `bodies` object: a body's record (its elements, the index
      of its state in the simulator's list and its mesh's position), or the
      `GravitySimulator` built on the list of initial states. */
  datatype Entry =
    | Body(elements: Elements, index: nat, position: Vec3)
    | Simulator(date: real, initial: seq<SimState>)

  /** A fresh mesh sits at the origin. */
  const Origin: Vec3 := Vec3(0.0, 0.0, 0.0)

  /** The scene objects of the result: one sphere and one orbit line per body
      (line 146), the line given by the numbers of its position attribute. */
  datatype SceneObject = Sphere(radius: real, color: nat) | LineLoop(positions: seq<real>)

  /** The state pushed for a body (lines 149-150): its equatorial state vector
      at the time of interest's Julian Day, stamped with its date. */
  function InitialState(m: MathFns, lib: Astronomia, el: Elements, toi: TimeOfInterest): SimState
    requires WellBehaved(m, lib) && Elliptic(el)
  {
    var sv := StateVectorFromElements(m, lib, el, toi.julianDay);
    SimState(sv.pos.x, sv.pos.y, sv.pos.z, sv.vel.x, sv.vel.y, sv.vel.z, toi.date)
  }

  ghost predicate AllElliptic(cat: seq<Catalogued>) {
    forall k :: 0 <= k < |cat| ==> Elliptic(cat[k].elements)
  }

  /** The `states` list after the loop has run over `cat`. */
  function InitialStates(m: MathFns, lib: Astronomia, cat: seq<Catalogued>, toi: TimeOfInterest): (states: seq<SimState>)
    requires WellBehaved(m, lib) && AllElliptic(cat)
    ensures |states| == |cat|
  {
    if cat == [] then []
    else InitialStates(m, lib, cat[..|cat| - 1], toi) + [InitialState(m, lib, cat[|cat| - 1].elements, toi)]
  }

  /** The orbit lines the loop draws for the bodies of `cat`, in order. */
  function OrbitLines(m: MathFns, lib: Astronomia, cat: seq<Catalogued>): (lines: seq<seq<real>>)
    requires WellBehaved(m, lib) && AllElliptic(cat)
    ensures |lines| == |cat|
  {
    if cat == [] then []
    else OrbitLines(m, lib, cat[..|cat| - 1]) + [SampledLine(m, lib, cat[|cat| - 1].elements, DefaultSegments)]
  }

  /** The `bodies` object after the loop has run over `cat` (lines 147-151):
      each body is stored under its lower-cased name, a later body replacing
      an earlier one of the same name, with the index of its state. */
  function Registered(cat: seq<Catalogued>): map<string, Entry> {
    if cat == [] then map[]
    else
      var k := |cat| - 1;
      Registered(cat[..k])[ToLower(cat[k].name) := Body(cat[k].elements, k, Origin)]
  }

  /** The scene position of a simulator state: (x, z, y) times SCALE (line 207). */
  function Placed(sv: SimState): Vec3 {
    ToScene(Vec3(sv.x, sv.y, sv.z))
  }

  /** Every body's index points into a list of `count` states. */
  ghost predicate IndicesBelow(entries: map<string, Entry>, count: nat) {
    forall k :: k in entries && entries[k].Body? ==> entries[k].index < count
  }

  /** The table after `updateSmallBodyPositions` with the simulator's
      states: every body moved to the scene position of its state. */
  function Moved(entries: map<string, Entry>, states: seq<SimState>): map<string, Entry>
    requires IndicesBelow(entries, |states|)
  {
    map k | k in entries ::
      if k != SimKey && entries[k].Body? then entries[k].(position := Placed(states[entries[k].index]))
      else entries[k]
  }

  /** The table `createSmallBodyMeshes` returns for the states the simulator
      reports: the catalogue registered, the simulator built on the initial
      states, and every body moved. */
  function Created(m: MathFns, lib: Astronomia, toi: TimeOfInterest, states: seq<SimState>): map<string, Entry>
    requires WellBehaved(m, lib) && |states| == |Catalogue|
  {
    CatalogueElliptic();
    RegisteredBelow(Catalogue);
    Moved(Registered(Catalogue)[SimKey := Simulator(toi.date, InitialStates(m, lib, Catalogue, toi))], states)
  }

  /** The `bodies` object. */
  class BodyTable {
    var entries: map<string, Entry>

    /** Every key but the simulator's holds a body; the simulator's key holds
        the simulator, and every body's index points into its list. */
    ghost predicate Valid()
      reads this
    {
      && (forall k :: k in entries && k != SimKey ==> entries[k].Body?)
      && (SimKey in entries ==> entries[SimKey].Simulator? && IndicesBelow(entries, |entries[SimKey].initial|))
    }

    /** `const bodies = {}` (line 140). */
    constructor ()
      ensures entries == map[]
      ensures Valid()
    {
      entries := map[];
    }

    /** `updateSmallBodyPositions(bodies, toi)` (lines 198-209). `states` is
        what the simulator's `Update(toi.getDate())` returns: one state per
        state it was built on. Without a simulator nothing changes. */
    method UpdatePositions(states: seq<SimState>)
      requires Valid()
      requires SimKey in entries ==> |states| == |entries[SimKey].initial|
      modifies this
      ensures Valid()
      ensures SimKey !in old(entries) ==> entries == old(entries)
      ensures SimKey in old(entries) ==> entries == Moved(old(entries), states)
    {
      if SimKey !in entries {
        return;
      }
      ghost var before := entries;
      var keys := entries.Keys;
      while keys != {}
        invariant entries.Keys == before.Keys && keys <= before.Keys
        invariant forall k :: k in before ==>
                    entries[k] == if k in keys then before[k] else Moved(before, states)[k]
        decreases keys
      {
        var key :| key in keys;
        keys := keys - {key};
        if key == SimKey {
          continue;
        }
        var body := entries[key];
        var sv := states[body.index];
        entries := entries[key := body.(position := ToScene(Vec3(sv.x, sv.y, sv.z)))];
      }
    }
  }

  /** `createSmallBodyMeshes(toi)` (lines 139-156). `states` is what the
      simulator's `Update(toi.getDate())` returns in the closing call of
      `updateSmallBodyPositions`: one state per catalogued body. The result
      holds a sphere and an orbit line per body, and the table registers every
      body under its key with its initial state's index, holds the simulator
      built on those initial states, and has every body moved to its state. */
  method CreateSmallBodyMeshes(m: MathFns, lib: Astronomia, toi: TimeOfInterest, states: seq<SimState>)
    returns (objects: seq<SceneObject>, bodies: BodyTable)
    requires WellBehaved(m, lib)
    requires |states| == |Catalogue|
    ensures fresh(bodies)
    ensures |objects| == 2 * |Catalogue|
    ensures forall k :: 0 <= k < |Catalogue| ==>
              && objects[2 * k] == Sphere(SphereRadius, Catalogue[k].color)
              && objects[2 * k + 1] == LineLoop(SampledLine(m, lib, Catalogue[k].elements, DefaultSegments))
    ensures bodies.Valid()
    ensures bodies.entries == Created(m, lib, toi, states)
  {
    CatalogueElliptic();
    bodies := new BodyTable();
    var initial;
    objects, initial := RegisterBodies(m, lib, toi, Catalogue, bodies);
    SceneObjectsLayout(Catalogue, OrbitLines(m, lib, Catalogue));
    forall k | 0 <= k < |Catalogue|
      ensures OrbitLines(m, lib, Catalogue)[k] == SampledLine(m, lib, Catalogue[k].elements, DefaultSegments)
    {
      OrbitLinesAt(m, lib, Catalogue, k);
    }
    RegisteredBelow(Catalogue);
    CatalogueKeys();
    bodies.entries := bodies.entries[SimKey := Simulator(toi.date, initial)];
    bodies.UpdatePositions(states);
  }

  /** The `objects` list for the bodies of `cat` and their orbit lines: a
      sphere of each body's colour followed by its line (line 146). */
  function SceneObjects(cat: seq<Catalogued>, lines: seq<seq<real>>): seq<SceneObject>
    requires |lines| == |cat|
  {
    if cat == [] then []
    else
      var k := |cat| - 1;
      SceneObjects(cat[..k], lines[..k]) + [Sphere(SphereRadius, cat[k].color), LineLoop(lines[k])]
  }

  /** The loop of lines 143-152 over a catalogue `cat`: for each body, a
      sphere and its orbit line join the objects, its initial state is pushed,
      and it is registered under its key with that state's index. */
  method RegisterBodies(m: MathFns, lib: Astronomia, toi: TimeOfInterest, cat: seq<Catalogued>, bodies: BodyTable)
    returns (objects: seq<SceneObject>, initial: seq<SimState>)
    requires WellBehaved(m, lib) && AllElliptic(cat)
    requires bodies.entries == map[]
    modifies bodies
    ensures objects == SceneObjects(cat, OrbitLines(m, lib, cat))
    ensures initial == InitialStates(m, lib, cat, toi)
    ensures bodies.entries == Registered(cat)
  {
    objects := [];
    initial := [];
    for k := 0 to |cat|
      invariant objects == SceneObjects(cat[..k], OrbitLines(m, lib, cat[..k]))
      invariant initial == InitialStates(m, lib, cat[..k], toi) && |initial| == k
      invariant bodies.entries == Registered(cat[..k])
    {
      var body := cat[k];
      var mesh := Sphere(SphereRadius, body.color);
      var orbit := CreateEllipseLine(m, lib, body.elements, DefaultSegments);
      objects := objects + [mesh, LineLoop(orbit)];
      var name := ToLower(body.name);
      initial := initial + [InitialState(m, lib, body.elements, toi)];
      LoopStep(m, lib, toi, cat, k);
      bodies.entries := bodies.entries[name := Body(body.elements, |initial| - 1, Origin)];
    }
    assert cat[..|cat|] == cat;
  }

  /** What one more body adds to the objects, the states and the table. */
  lemma LoopStep(m: MathFns, lib: Astronomia, toi: TimeOfInterest, cat: seq<Catalogued>, k: nat)
    requires WellBehaved(m, lib) && AllElliptic(cat) && k < |cat|
    ensures SceneObjects(cat[..k + 1], OrbitLines(m, lib, cat[..k + 1]))
            == SceneObjects(cat[..k], OrbitLines(m, lib, cat[..k]))
               + [Sphere(SphereRadius, cat[k].color), LineLoop(SampledLine(m, lib, cat[k].elements, DefaultSegments))]
    ensures InitialStates(m, lib, cat[..k + 1], toi) == InitialStates(m, lib, cat[..k], toi) + [InitialState(m, lib, cat[k].elements, toi)]
    ensures Registered(cat[..k + 1]) == Registered(cat[..k])[ToLower(cat[k].name) := Body(cat[k].elements, k, Origin)]
  {
    assert cat[..k + 1][..k] == cat[..k];
    assert OrbitLines(m, lib, cat[..k + 1])[..k] == OrbitLines(m, lib, cat[..k]);
  }

  // ---------------------------------------------------------------------------
  // Properties of the table

  /** The objects alternate: body k's sphere at 2k and its line at 2k + 1. */
  lemma {:induction false} SceneObjectsLayout(cat: seq<Catalogued>, lines: seq<seq<real>>)
    requires |lines| == |cat|
    ensures |SceneObjects(cat, lines)| == 2 * |cat|
    ensures forall k :: 0 <= k < |cat| ==>
              SceneObjects(cat, lines)[2 * k] == Sphere(SphereRadius, cat[k].color) &&
              SceneObjects(cat, lines)[2 * k + 1] == LineLoop(lines[k])
  {
    if cat != [] {
      var n := |cat| - 1;
      SceneObjectsLayout(cat[..n], lines[..n]);
    }
  }

  /** The k-th initial state is the k-th body's state vector at the time of
      interest. */
  lemma {:induction false} InitialStatesAt(m: MathFns, lib: Astronomia, cat: seq<Catalogued>, toi: TimeOfInterest, k: nat)
    requires WellBehaved(m, lib) && AllElliptic(cat) && k < |cat|
    ensures InitialStates(m, lib, cat, toi)[k] == InitialState(m, lib, cat[k].elements, toi)
  {
    if k < |cat| - 1 {
      var prefix := cat[..|cat| - 1];
      InitialStatesAt(m, lib, prefix, toi, k);
    }
  }

  /** The k-th orbit line is the k-th body's orbit line. */
  lemma {:induction false} OrbitLinesAt(m: MathFns, lib: Astronomia, cat: seq<Catalogued>, k: nat)
    requires WellBehaved(m, lib) && AllElliptic(cat) && k < |cat|
    ensures OrbitLines(m, lib, cat)[k] == SampledLine(m, lib, cat[k].elements, DefaultSegments)
  {
    if k < |cat| - 1 {
      var prefix := cat[..|cat| - 1];
      OrbitLinesAt(m, lib, prefix, k);
    }
  }

  /** A key is registered exactly when some body lower-cases to it, and it
      then holds the LAST such body, with that body's position in the
      catalogue as its index and its mesh at the origin. */
  lemma {:induction false} RegisteredEntry(cat: seq<Catalogued>, name: string)
    ensures name in Registered(cat) <==> exists k :: 0 <= k < |cat| && ToLower(cat[k].name) == name
    ensures name in Registered(cat) ==>
              var b := Registered(cat)[name];
              && b.Body? && b.index < |cat| && b.position == Origin
              && ToLower(cat[b.index].name) == name && b.elements == cat[b.index].elements
              && forall j :: b.index < j < |cat| ==> ToLower(cat[j].name) != name
  {
    if cat != [] {
      var k := |cat| - 1;
      var prefix := cat[..k];
      RegisteredEntry(prefix, name);
      if ToLower(cat[k].name) != name && name in Registered(prefix) {
        var b := Registered(prefix)[name];
        assert cat[b.index] == prefix[b.index];
      }
      if exists j :: 0 <= j < |cat| && ToLower(cat[j].name) == name {
        var j :| 0 <= j < |cat| && ToLower(cat[j].name) == name;
        if j < k {
          assert prefix[j] == cat[j];
        }
      }
    }
  }

  /** Every index is below the number of catalogued bodies. */
  lemma RegisteredBelow(cat: seq<Catalogued>)
    ensures IndicesBelow(Registered(cat), |cat|)
    ensures forall k :: k in Registered(cat) ==> Registered(cat)[k].Body?
  {
    forall name | name in Registered(cat)
      ensures Registered(cat)[name].Body? && Registered(cat)[name].index < |cat|
    {
      RegisteredEntry(cat, name);
    }
  }

  /** No two keys share an index: each state in the simulator's list moves
      at most one body. */
  lemma RegisteredIndicesDistinct(cat: seq<Catalogued>, a: string, b: string)
    requires a in Registered(cat) && b in Registered(cat) && a != b
    ensures var x, y := Registered(cat)[a], Registered(cat)[b];
            x.Body? && y.Body? && x.index != y.index
  {
    RegisteredEntry(cat, a);
    RegisteredEntry(cat, b);
  }

  /** When no two names lower-case alike, body k sits under its own key with
      index k. */
  lemma RegisteredDistinct(cat: seq<Catalogued>, k: nat)
    requires k < |cat|
    requires forall i, j :: 0 <= i < j < |cat| ==> ToLower(cat[i].name) != ToLower(cat[j].name)
    ensures ToLower(cat[k].name) in Registered(cat)
    ensures Registered(cat)[ToLower(cat[k].name)] == Body(cat[k].elements, k, Origin)
  {
    var name := ToLower(cat[k].name);
    RegisteredEntry(cat, name);
    var i := Registered(cat)[name].index;
    assert !(i < k) by {
      assert ToLower(cat[k].name) == name;
    }
    assert !(k < i) by {
      assert ToLower(cat[i].name) == name;
    }
  }

  /** The update keeps every key, the simulator, every body's elements and
      index, and puts each body at the scene position of its own state. */
  lemma MovedEntries(entries: map<string, Entry>, states: seq<SimState>)
    requires IndicesBelow(entries, |states|)
    ensures Moved(entries, states).Keys == entries.Keys
    ensures SimKey in entries ==> Moved(entries, states)[SimKey] == entries[SimKey]
    ensures forall k :: k in entries && k != SimKey && entries[k].Body? ==>
              var b := entries[k];
              Moved(entries, states)[k] == Body(b.elements, b.index, Placed(states[b.index]))
  {
  }

  /** Only the latest states matter: updating twice is updating once with the
      second list (and so the update is idempotent). */
  lemma MovedTwice(entries: map<string, Entry>, first: seq<SimState>, second: seq<SimState>)
    requires IndicesBelow(entries, |first|) && IndicesBelow(entries, |second|)
    ensures IndicesBelow(Moved(entries, first), |second|)
    ensures Moved(Moved(entries, first), second) == Moved(entries, second)
  {
  }

  /** A body's drawn position gives back its state's heliocentric position. */
  lemma PlacedRoundTrip(sv: SimState)
    ensures FromScene(Placed(sv)) == Vec3(sv.x, sv.y, sv.z)
  {
  }

  /** The table `createSmallBodyMeshes` returns: the four catalogue keys and
      the simulator's, body k under its key with index k at the scene position
      of the k-th state, and the simulator built on the four initial states. */
  lemma CreatedTable(m: MathFns, lib: Astronomia, toi: TimeOfInterest, states: seq<SimState>)
    requires WellBehaved(m, lib) && |states| == |Catalogue|
    ensures Created(m, lib, toi, states).Keys == {"ceres", "vesta", "halley", "neowise", SimKey}
    ensures Created(m, lib, toi, states)[SimKey] == Simulator(toi.date, InitialStates(m, lib, Catalogue, toi))
    ensures |InitialStates(m, lib, Catalogue, toi)| == |Catalogue|
    ensures forall k :: 0 <= k < |Catalogue| ==>
              ToLower(Catalogue[k].name) in Created(m, lib, toi, states) &&
              Created(m, lib, toi, states)[ToLower(Catalogue[k].name)] == Body(Catalogue[k].elements, k, Placed(states[k]))
  {
    CatalogueElliptic();
    CatalogueKeys();
    RegisteredBelow(Catalogue);
    var initial := InitialStates(m, lib, Catalogue, toi);
    var table := Registered(Catalogue)[SimKey := Simulator(toi.date, initial)];
    forall k | 0 <= k < |Catalogue|
      ensures ToLower(Catalogue[k].name) in table && table[ToLower(Catalogue[k].name)] == Body(Catalogue[k].elements, k, Origin)
    {
      RegisteredDistinct(Catalogue, k);
    }
    forall name | name in Registered(Catalogue)
      ensures name in {"ceres", "vesta", "halley", "neowise"}
    {
      RegisteredEntry(Catalogue, name);
    }
    MovedEntries(table, states);
  }
}
