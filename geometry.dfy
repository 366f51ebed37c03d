/** Positions, colour labels, the coordinate table of a slice rotation and the
    eighteen named moves of the cube engine, as values (rubik/model.py). The
    classes that hold and mutate this state are in module Model. */
module Geometry {

  datatype Option<T> = None | Some(value: T)

  /** The three spatial axes (the names x, y, z of the configuration). */
  datatype Axis = X | Y | Z

  /** The six sticker colours. */
  datatype Color = Red | Orange | White | Yellow | Green | Blue

  /** A position of a piece, or a rotation vector: an integer triple whose
      components are read by axis. */
  datatype Pos = Pos(x: int, y: int, z: int) {
    function Coord(a: Axis): int {
      match a
      case X => x
      case Y => y
      case Z => z
    }
  }

  /** The three colour labels of a piece, one bound to each axis; None where
      that face of the piece is inside the cube. */
  datatype Labels = Labels(x: Option<Color>, y: Option<Color>, z: Option<Color>) {
    function Get(a: Axis): Option<Color> {
      match a
      case X => x
      case Y => y
      case Z => z
    }

    /** The labels after the piece turns about axis `a`: the label bound to `a`
        stays, the other two trade places. A transposition, not a 3-cycle. */
    function Rotated(a: Axis): (r: Labels)
      ensures r.Get(a) == Get(a)
      ensures forall b :: r.Get(b) == Get(Partner(a, b))
    {
      match a
      case X => Labels(x, z, y)
      case Y => Labels(z, y, x)
      case Z => Labels(y, x, z)
    }
  }

  /** The axis that is neither a nor b, for a != b. */
  function Third(a: Axis, b: Axis): (c: Axis)
    requires a != b
    ensures c != a && c != b
  {
    if a != X && b != X then X else if a != Y && b != Y then Y else Z
  }

  /** After a quarter turn about ax, the label bound to axis b is the one that
      was bound to Partner(ax, b): b itself when b is the turn axis, the third
      axis otherwise. */
  function Partner(ax: Axis, b: Axis): Axis {
    if b == ax then b else Third(ax, b)
  }

  /** Turning a piece twice about the same axis restores its labels. */
  lemma RotatedTwice(l: Labels, a: Axis)
    ensures l.Rotated(a).Rotated(a) == l
  {
  }

  function Abs(n: int): nat {
    if n < 0 then -n else n
  }

  /** n is one of the two outermost coordinates. */
  predicate Extreme(limit: int, n: int) {
    n == limit || n == -limit
  }

  /** Being extreme depends on the magnitude alone. */
  lemma ExtremeAbs(limit: int, m: int, n: int)
    requires Abs(m) == Abs(n)
    ensures Extreme(limit, m) <==> Extreme(limit, n)
  {
  }

  /** p lies in the coordinate cube [-limit, limit]^3. */
  predicate InCube(limit: int, p: Pos) {
    -limit <= p.x <= limit && -limit <= p.y <= limit && -limit <= p.z <= limit
  }

  /** A key set is exactly the coordinate cube. */
  ghost predicate CoversCube(limit: int, keys: set<Pos>) {
    forall p :: p in keys <==> InCube(limit, p)
  }

  /** The first k positions of the row (x, y, *), z counted up from -limit. */
  ghost function Row(limit: int, x: int, y: int, k: nat): (r: set<Pos>)
    ensures forall p :: p in r <==> p.x == x && p.y == y && -limit <= p.z < -limit + k
    ensures |r| == k
  {
    if k == 0 then {} else Row(limit, x, y, k - 1) + {Pos(x, y, -limit + k - 1)}
  }

  /** The first k rows of the plane (x, *, *), y counted up from -limit. */
  ghost function Plane(limit: int, x: int, k: nat): (r: set<Pos>)
    requires 0 <= limit
    ensures forall p :: p in r <==> p.x == x && -limit <= p.y < -limit + k && -limit <= p.z <= limit
    ensures |r| == k * (2 * limit + 1)
  {
    if k == 0 then {} else
      var before, row := Plane(limit, x, k - 1), Row(limit, x, -limit + k - 1, 2 * limit + 1);
      assert before !! row;
      before + row
  }

  /** The first k planes of the cube, x counted up from -limit. */
  ghost function Block(limit: int, k: nat): (r: set<Pos>)
    requires 0 <= limit
    ensures forall p :: p in r <==> -limit <= p.x < -limit + k && -limit <= p.y <= limit && -limit <= p.z <= limit
    ensures |r| == k * ((2 * limit + 1) * (2 * limit + 1))
  {
    if k == 0 then {} else
      var before, plane := Block(limit, k - 1), Plane(limit, -limit + k - 1, 2 * limit + 1);
      assert before !! plane;
      before + plane
  }

  /** A cube of side n = 2 * limit + 1 has n * n * n positions. */
  lemma CubeSize(limit: int, keys: set<Pos>)
    requires 0 <= limit && CoversCube(limit, keys)
    ensures |keys| == (2 * limit + 1) * (2 * limit + 1) * (2 * limit + 1)
  {
    var n := 2 * limit + 1;
    assert keys == Block(limit, n);
    assert n * (n * n) == n * n * n;
  }

  /** No piece is held at two positions. */
  ghost predicate Distinct<T>(m: map<Pos, T>) {
    forall p, q :: p in m && q in m && p != q ==> m[p] != m[q]
  }

  /** The six unit vectors along the axes. */
  predicate IsRotation(v: Pos) {
    v == Pos(1, 0, 0) || v == Pos(-1, 0, 0) || v == Pos(0, 1, 0) ||
    v == Pos(0, -1, 0) || v == Pos(0, 0, 1) || v == Pos(0, 0, -1)
  }

  /** The axis of a rotation vector: the first component of magnitude one. */
  function AxisOf(v: Pos): (a: Axis)
    requires IsRotation(v)
    ensures Abs(v.Coord(a)) == 1
    ensures forall b :: b != a ==> v.Coord(b) == 0
  {
    if Abs(v.x) == 1 then X else if Abs(v.y) == 1 then Y else Z
  }

  /** The sign of a rotation vector: the sum of its components. */
  function SignOf(v: Pos): (s: int)
    ensures IsRotation(v) ==> s == v.Coord(AxisOf(v)) && Abs(s) == 1
  {
    v.x + v.y + v.z
  }

  /** The rotation vector, negated component-wise for an inverse turn. */
  function Direction(v: Pos, inverse: bool): (d: Pos)
    ensures IsRotation(v) ==> IsRotation(d) && AxisOf(d) == AxisOf(v)
    ensures IsRotation(v) && inverse ==> SignOf(d) == -SignOf(v)
    ensures IsRotation(v) && !inverse ==> d == v
  {
    if inverse then Pos(-v.x, -v.y, -v.z) else v
  }

  /** The fixed six-entry table: where a piece of the turning slice goes, by
      turn direction. Each entry is a quarter rotation about the direction's axis. */
  function NewPosition(d: Pos, p: Pos): (q: Pos)
    requires IsRotation(d)
    ensures q.Coord(AxisOf(d)) == p.Coord(AxisOf(d))
  {
    if d == Pos(1, 0, 0) then Pos(p.x, p.z, -p.y)
    else if d == Pos(-1, 0, 0) then Pos(p.x, -p.z, p.y)
    else if d == Pos(0, 1, 0) then Pos(-p.z, p.y, p.x)
    else if d == Pos(0, -1, 0) then Pos(p.z, p.y, -p.x)
    else if d == Pos(0, 0, 1) then Pos(p.y, -p.x, p.z)
    else Pos(-p.y, p.x, p.z)
  }

  /** The inverse direction's table entry undoes the entry. */
  lemma NewPositionUndo(d: Pos, p: Pos)
    requires IsRotation(d)
    ensures NewPosition(Direction(d, true), NewPosition(d, p)) == p
  {
    var e := Direction(d, true);
    if d == Pos(1, 0, 0) {
      assert e == Pos(-1, 0, 0);
    } else if d == Pos(-1, 0, 0) {
      assert e == Pos(1, 0, 0);
    } else if d == Pos(0, 1, 0) {
      assert e == Pos(0, -1, 0);
    } else if d == Pos(0, -1, 0) {
      assert e == Pos(0, 1, 0);
    } else if d == Pos(0, 0, 1) {
      assert e == Pos(0, 0, -1);
    } else {
      assert e == Pos(0, 0, 1);
    }
  }

  /** Four quarter rotations in the same direction are the identity. */
  lemma NewPositionFour(d: Pos, p: Pos)
    requires IsRotation(d)
    ensures NewPosition(d, NewPosition(d, NewPosition(d, NewPosition(d, p)))) == p
  {
  }

  /** The six faces, each with the rotation vector its moves pass. */
  datatype Face = R | L | U | D | F | B {
    function Rotation(): (v: Pos)
      ensures IsRotation(v)
    {
      match this
      case R => Pos(1, 0, 0)
      case L => Pos(-1, 0, 0)
      case U => Pos(0, 1, 0)
      case D => Pos(0, -1, 0)
      case F => Pos(0, 0, 1)
      case B => Pos(0, 0, -1)
    }
  }

  /** One slice rotation: the face whose outer slice turns, and whether the
      turn is the inverse one. */
  datatype Twist = Twist(face: Face, inverse: bool) {
    function Inverted(): Twist {
      Twist(face, !inverse)
    }

    /** The axis the slice turns about. */
    function SliceAxis(): Axis {
      AxisOf(face.Rotation())
    }
  }

  /** p is in the outer slice the twist turns: its coordinate on the twist's
      axis is sign * limit. */
  predicate OnSlice(limit: int, t: Twist, p: Pos) {
    var v := t.face.Rotation();
    p.Coord(AxisOf(v)) == SliceCoord(limit, v)
  }

  /** The coordinate of the outer slice a rotation vector points to:
      sign * limit, that is limit or -limit. */
  function SliceCoord(limit: int, v: Pos): (c: int)
    ensures IsRotation(v) ==> c == if SignOf(v) == 1 then limit else -limit
  {
    SignOf(v) * limit
  }

  /** Where the piece at p is after the twist: re-keyed through the table for
      the turn's direction when it is in the slice, in place otherwise. */
  function Moved(limit: int, t: Twist, p: Pos): Pos {
    if OnSlice(limit, t, p) then NewPosition(Direction(t.face.Rotation(), t.inverse), p) else p
  }

  /** A twist keeps its slice, and the rest of the cube, as a set. */
  lemma MovedKeepsSlice(limit: int, t: Twist, p: Pos)
    ensures OnSlice(limit, t, Moved(limit, t, p)) == OnSlice(limit, t, p)
  {
  }

  /** The inverse twist takes every piece back. */
  lemma MovedUndo(limit: int, t: Twist, p: Pos)
    ensures Moved(limit, t.Inverted(), Moved(limit, t, p)) == p
  {
    var v, i := t.face.Rotation(), t.Inverted();
    var q := Moved(limit, t, p);
    MovedKeepsSlice(limit, t, p);
    assert OnSlice(limit, i, q) == OnSlice(limit, t, q);
    if OnSlice(limit, t, p) {
      var d := Direction(v, t.inverse);
      assert q == NewPosition(d, p);
      NewPositionUndo(d, p);
      assert Direction(v, i.inverse) == Direction(d, true);
      assert Moved(limit, i, q) == NewPosition(Direction(d, true), q);
    } else {
      assert q == p && !OnSlice(limit, i, q);
    }
  }

  /** No two positions move to the same key. */
  lemma MovedInjective(limit: int, t: Twist)
    ensures forall p, q :: Moved(limit, t, p) == Moved(limit, t, q) ==> p == q
  {
    forall p, q | Moved(limit, t, p) == Moved(limit, t, q)
      ensures p == q
    {
      MovedUndo(limit, t, p);
      MovedUndo(limit, t, q);
    }
  }

  /** A twist maps the coordinate cube onto itself. */
  lemma MovedInCube(limit: int, t: Twist, p: Pos)
    ensures InCube(limit, Moved(limit, t, p)) <==> InCube(limit, p)
  {
  }

  /** Four equal twists bring every piece back. */
  lemma MovedFour(limit: int, t: Twist, p: Pos)
    ensures Moved(limit, t, Moved(limit, t, Moved(limit, t, Moved(limit, t, p)))) == p
  {
    if OnSlice(limit, t, p) {
      var d := Direction(t.face.Rotation(), t.inverse);
      var p1 := Moved(limit, t, p);
      var p2 := Moved(limit, t, p1);
      var p3 := Moved(limit, t, p2);
      MovedKeepsSlice(limit, t, p);
      MovedKeepsSlice(limit, t, p1);
      MovedKeepsSlice(limit, t, p2);
      NewPositionFour(d, p);
    }
  }

  /** The core and the face centres: at most one non-zero coordinate, and that
      one extreme. */
  predicate IsCentre(limit: int, p: Pos) {
    p == Pos(0, 0, 0) ||
    (Extreme(limit, p.x) && p.y == 0 && p.z == 0) ||
    (p.x == 0 && Extreme(limit, p.y) && p.z == 0) ||
    (p.x == 0 && p.y == 0 && Extreme(limit, p.z))
  }

  /** Every twist leaves the core and the face centres where they are. */
  lemma MovedFixesCentre(limit: int, t: Twist, p: Pos)
    requires IsCentre(limit, p)
    ensures Moved(limit, t, p) == p
  {
    if OnSlice(limit, t, p) {
      var d := Direction(t.face.Rotation(), t.inverse);
      var a := AxisOf(d);
      assert Extreme(limit, p.Coord(a));
      forall b | b != a
        ensures p.Coord(b) == 0
      {
        assert a == X || a == Y || a == Z;
      }
      NewPositionOnAxis(d, p);
    }
  }

  /** A position on the table entry's own axis stays where it is. */
  lemma NewPositionOnAxis(d: Pos, p: Pos)
    requires IsRotation(d)
    requires forall b :: b != AxisOf(d) ==> p.Coord(b) == 0
    ensures NewPosition(d, p) == p
  {
    var a := AxisOf(d);
    if a == X {
      assert p.y == p.Coord(Y) == 0 && p.z == p.Coord(Z) == 0;
    } else if a == Y {
      assert p.x == p.Coord(X) == 0 && p.z == p.Coord(Z) == 0;
    } else {
      assert p.x == p.Coord(X) == 0 && p.y == p.Coord(Y) == 0;
    }
  }

  /** The piece map after one slice rotation: each entry re-keyed to where its
      piece moves. */
  function Turn<T>(m: map<Pos, T>, limit: int, t: Twist): map<Pos, T> {
    MovedInjective(limit, t);
    map p | p in m :: Moved(limit, t, p) := m[p]
  }

  /** The entry at q after a twist is the one the inverse twist takes q to. */
  lemma TurnAt<T>(m: map<Pos, T>, limit: int, t: Twist, q: Pos)
    ensures q in Turn(m, limit, t) <==> Moved(limit, t.Inverted(), q) in m
    ensures q in Turn(m, limit, t) ==> Turn(m, limit, t)[q] == m[Moved(limit, t.Inverted(), q)]
  {
    var p := Moved(limit, t.Inverted(), q);
    MovedUndo(limit, t.Inverted(), q);
    assert t.Inverted().Inverted() == t;
    assert Moved(limit, t, p) == q;
    if q in Turn(m, limit, t) {
      var p' :| p' in m && Moved(limit, t, p') == q;
      MovedUndo(limit, t, p');
    }
  }

  /** A map built by sending every entry at p to Moved(p), and nothing else,
      is the Turn of the original. */
  lemma TurnCharacterized<T>(m: map<Pos, T>, r: map<Pos, T>, limit: int, t: Twist)
    requires forall p :: p in m ==> Moved(limit, t, p) in r && r[Moved(limit, t, p)] == m[p]
    requires forall q :: q in r ==> Moved(limit, t.Inverted(), q) in m
    ensures r == Turn(m, limit, t)
  {
    forall q
      ensures q in r <==> q in Turn(m, limit, t)
      ensures q in r ==> r[q] == Turn(m, limit, t)[q]
    {
      TurnAt(m, limit, t, q);
      var p := Moved(limit, t.Inverted(), q);
      MovedUndo(limit, t.Inverted(), q);
      assert t.Inverted().Inverted() == t;
      assert Moved(limit, t, p) == q;
    }
  }

  /** Pieces off the slice keep their key; a piece of the slice at p is found
      at the table entry for the turn's direction. */
  lemma TurnMovesSlice<T>(m: map<Pos, T>, limit: int, t: Twist, p: Pos)
    requires p in m
    ensures !OnSlice(limit, t, p) ==> p in Turn(m, limit, t) && Turn(m, limit, t)[p] == m[p]
    ensures OnSlice(limit, t, p) ==>
      var q := NewPosition(Direction(t.face.Rotation(), t.inverse), p);
      q in Turn(m, limit, t) && Turn(m, limit, t)[q] == m[p]
  {
    TurnAt(m, limit, t, Moved(limit, t, p));
    MovedUndo(limit, t, p);
  }

  /** r holds exactly the entries of m outside todo, each at the key its
      piece moves to: a Turn built part of the way. */
  ghost predicate Rekeyed<T>(m: map<Pos, T>, todo: set<Pos>, r: map<Pos, T>, limit: int, t: Twist) {
    (forall p :: p in m && p !in todo ==> Moved(limit, t, p) in r && r[Moved(limit, t, p)] == m[p]) &&
    (forall q {:trigger Moved(limit, t.Inverted(), q)} :: q in r ==>
      Moved(limit, t.Inverted(), q) in m && Moved(limit, t.Inverted(), q) !in todo)
  }

  /** Re-keying one more entry adds it at the position its piece moves to,
      where nothing was yet. */
  lemma RekeyedStep<T>(m: map<Pos, T>, todo: set<Pos>, r: map<Pos, T>, p: Pos, limit: int, t: Twist)
    requires Rekeyed(m, todo, r, limit, t) && p in m && p in todo
    ensures Moved(limit, t, p) !in r
    ensures Rekeyed(m, todo - {p}, r[Moved(limit, t, p) := m[p]], limit, t)
  {
    var target := Moved(limit, t, p);
    MovedUndo(limit, t, p);
    var r' := r[target := m[p]];
    forall p' | p' in m && p' !in todo - {p}
      ensures Moved(limit, t, p') in r' && r'[Moved(limit, t, p')] == m[p']
    {
      if p' != p {
        MovedUndo(limit, t, p');
      }
    }
  }

  /** Once every entry is re-keyed, the result is the Turn. */
  lemma RekeyedAll<T>(m: map<Pos, T>, r: map<Pos, T>, limit: int, t: Twist)
    requires Rekeyed(m, {}, r, limit, t)
    ensures r == Turn(m, limit, t)
  {
    TurnCharacterized(m, r, limit, t);
  }

  /** A twist keeps the key set the coordinate cube. */
  lemma TurnCoversCube<T>(m: map<Pos, T>, limit: int, t: Twist)
    requires CoversCube(limit, m.Keys)
    ensures CoversCube(limit, Turn(m, limit, t).Keys)
  {
    forall q
      ensures q in Turn(m, limit, t) <==> InCube(limit, q)
    {
      TurnAt(m, limit, t, q);
      MovedInCube(limit, t.Inverted(), q);
    }
  }

  /** A twist neither loses nor duplicates a piece. */
  lemma TurnDistinct<T>(m: map<Pos, T>, limit: int, t: Twist)
    requires Distinct(m)
    ensures Distinct(Turn(m, limit, t))
    ensures Turn(m, limit, t).Values == m.Values
  {
    var r := Turn(m, limit, t);
    forall p, q | p in r && q in r && p != q
      ensures r[p] != r[q]
    {
      TurnAt(m, limit, t, p);
      TurnAt(m, limit, t, q);
      MovedInjective(limit, t.Inverted());
    }
    forall v | v in m.Values
      ensures v in r.Values
    {
      var p :| p in m && m[p] == v;
      TurnMovesSlice(m, limit, t, p);
    }
    forall v | v in r.Values
      ensures v in m.Values
    {
      var q :| q in r && r[q] == v;
      TurnAt(m, limit, t, q);
    }
  }

  /** The core and the face centres keep their piece under every twist. */
  lemma TurnKeepsCentre<T>(m: map<Pos, T>, limit: int, t: Twist, p: Pos)
    requires p in m && IsCentre(limit, p)
    ensures p in Turn(m, limit, t) && Turn(m, limit, t)[p] == m[p]
  {
    MovedFixesCentre(limit, t, p);
    TurnAt(m, limit, t, Moved(limit, t, p));
    MovedUndo(limit, t, p);
  }

  /** r is m re-keyed so that the entry at q comes from f(q). */
  ghost predicate PulledBack<T>(m: map<Pos, T>, r: map<Pos, T>, f: Pos -> Pos) {
    (forall q :: q in r <==> f(q) in m) &&
    (forall q :: q in r ==> r[q] == m[f(q)])
  }

  lemma PulledBackTwice<T>(m: map<Pos, T>, m1: map<Pos, T>, m2: map<Pos, T>, f: Pos -> Pos, g: Pos -> Pos)
    requires PulledBack(m, m1, f) && PulledBack(m1, m2, g)
    requires forall q :: f(g(q)) == q
    ensures m2 == m
  {
    forall q
      ensures q in m2 <==> q in m
      ensures q in m ==> m2[q] == m[q]
    {
      assert f(g(q)) == q;
    }
  }

  lemma PulledBackFour<T>(m: map<Pos, T>, m1: map<Pos, T>, m2: map<Pos, T>, m3: map<Pos, T>, m4: map<Pos, T>, f: Pos -> Pos)
    requires PulledBack(m, m1, f) && PulledBack(m1, m2, f)
    requires PulledBack(m2, m3, f) && PulledBack(m3, m4, f)
    requires forall q :: f(f(f(f(q)))) == q
    ensures m4 == m
  {
    forall q
      ensures q in m4 <==> q in m
      ensures q in m ==> m4[q] == m[q]
    {
      assert f(f(f(f(q)))) == q;
    }
  }

  /** Where the entry found at q after the twist t came from. */
  function Back(limit: int, t: Twist): Pos -> Pos {
    q => Moved(limit, t.Inverted(), q)
  }

  /** TurnAt for every key at once. */
  lemma TurnPull<T>(m: map<Pos, T>, limit: int, t: Twist)
    ensures PulledBack(m, Turn(m, limit, t), Back(limit, t))
  {
    forall q
      ensures q in Turn(m, limit, t) <==> Back(limit, t)(q) in m
      ensures q in Turn(m, limit, t) ==> Turn(m, limit, t)[q] == m[Back(limit, t)(q)]
    {
      TurnAt(m, limit, t, q);
    }
  }

  /** A quarter turn applied four times is the identity on the piece map. */
  lemma TurnFour<T>(m: map<Pos, T>, limit: int, t: Twist)
    ensures Turn(Turn(Turn(Turn(m, limit, t), limit, t), limit, t), limit, t) == m
  {
    var m1 := Turn(m, limit, t);
    var m2 := Turn(m1, limit, t);
    var m3 := Turn(m2, limit, t);
    var m4 := Turn(m3, limit, t);
    var back := Back(limit, t);
    TurnPull(m, limit, t);
    TurnPull(m1, limit, t);
    TurnPull(m2, limit, t);
    TurnPull(m3, limit, t);
    forall q
      ensures back(back(back(back(q)))) == q
    {
      MovedFour(limit, t.Inverted(), q);
    }
    PulledBackFour(m, m1, m2, m3, m4, back);
  }

  /** A twist followed by its inverse is the identity on the piece map. */
  lemma TurnUndo<T>(m: map<Pos, T>, limit: int, t: Twist)
    ensures Turn(Turn(m, limit, t), limit, t.Inverted()) == m
  {
    var m1 := Turn(m, limit, t);
    var m2 := Turn(m1, limit, t.Inverted());
    assert t.Inverted().Inverted() == t;
    TurnPull(m, limit, t);
    TurnPull(m1, limit, t.Inverted());
    forall q
      ensures Back(limit, t)(Back(limit, t.Inverted())(q)) == q
    {
      MovedUndo(limit, t, q);
    }
    PulledBackTwice(m, m1, m2, Back(limit, t), Back(limit, t.Inverted()));
  }

  /** The labels after the pieces of the twist's slice turn about its axis;
      the positions are not changed. */
  function Reorient(c: map<Pos, Labels>, limit: int, t: Twist): map<Pos, Labels> {
    map p | p in c :: if OnSlice(limit, t, p) then c[p].Rotated(t.SliceAxis()) else c[p]
  }

  /** The colour view after one slice rotation: every piece of the slice is
      turned once about the slice axis, whatever the direction, and every
      piece is re-keyed as in Turn. */
  function TurnColors(c: map<Pos, Labels>, limit: int, t: Twist): map<Pos, Labels> {
    Turn(Reorient(c, limit, t), limit, t)
  }

  /** A piece moved by a twist carries its coordinates with its labels: the
      coordinate now on axis b has the magnitude the coordinate on
      Partner(axis, b) had. */
  lemma MovedCoord(limit: int, t: Twist, p: Pos, b: Axis)
    requires OnSlice(limit, t, p)
    ensures Abs(Moved(limit, t, p).Coord(b)) == Abs(p.Coord(Partner(t.SliceAxis(), b)))
  {
  }

  /** The colour at q after a twist: the labels of the piece the inverse twist
      takes q to, turned once when q is in the slice. */
  lemma TurnColorsAt(c: map<Pos, Labels>, limit: int, t: Twist, q: Pos)
    ensures q in TurnColors(c, limit, t) <==> Back(limit, t)(q) in c
    ensures q in TurnColors(c, limit, t) ==>
      var p := Back(limit, t)(q);
      TurnColors(c, limit, t)[q] == if OnSlice(limit, t, q) then c[p].Rotated(t.SliceAxis()) else c[p]
  {
    TurnAt(Reorient(c, limit, t), limit, t, q);
    MovedKeepsSlice(limit, t.Inverted(), q);
  }

  /** Each label of a piece is present exactly when the piece's coordinate on
      that axis is extreme. */
  ghost predicate Shell(limit: int, c: map<Pos, Labels>) {
    forall p, a :: p in c ==> (c[p].Get(a).Some? <==> Extreme(limit, p.Coord(a)))
  }

  /** Every twist keeps the shell invariant. */
  lemma TurnColorsShell(c: map<Pos, Labels>, limit: int, t: Twist)
    requires Shell(limit, c)
    ensures Shell(limit, TurnColors(c, limit, t))
  {
    var r := TurnColors(c, limit, t);
    forall q, a | q in r
      ensures r[q].Get(a).Some? <==> Extreme(limit, q.Coord(a))
    {
      ShellAt(c, limit, t, q, a);
    }
  }

  /** The shell invariant at one position and axis after a twist. */
  lemma ShellAt(c: map<Pos, Labels>, limit: int, t: Twist, q: Pos, a: Axis)
    requires Shell(limit, c)
    requires q in TurnColors(c, limit, t)
    ensures TurnColors(c, limit, t)[q].Get(a).Some? <==> Extreme(limit, q.Coord(a))
  {
    TurnColorsAt(c, limit, t, q);
    var p := Moved(limit, t.Inverted(), q);
    assert p == Back(limit, t)(q) && p in c;
    var l := TurnColors(c, limit, t)[q];
    if OnSlice(limit, t, q) {
      var b := Partner(t.SliceAxis(), a);
      MovedUndo(limit, t.Inverted(), q);
      assert t.Inverted().Inverted() == t;
      MovedKeepsSlice(limit, t, p);
      MovedCoord(limit, t, p, a);
      assert l.Get(a) == c[p].Get(b);
      assert c[p].Get(b).Some? <==> Extreme(limit, p.Coord(b));
      assert Abs(q.Coord(a)) == Abs(p.Coord(b));
      ExtremeAbs(limit, q.Coord(a), p.Coord(b));
    } else {
      assert !OnSlice(limit, t.Inverted(), q);
      assert p == q && l == c[q];
    }
  }

  /** Turning the slice's labels twice restores them. */
  lemma ReorientTwice(c: map<Pos, Labels>, limit: int, t: Twist, t': Twist)
    requires t'.face == t.face
    ensures Reorient(Reorient(c, limit, t), limit, t') == c
  {
    var r := Reorient(Reorient(c, limit, t), limit, t');
    forall p | p in c
      ensures r[p] == c[p]
    {
      RotatedTwice(c[p], t.SliceAxis());
    }
  }

  /** Re-keying and re-orienting the same slice commute. */
  lemma TurnReorient(c: map<Pos, Labels>, limit: int, t: Twist, t': Twist)
    requires t'.face == t.face
    ensures Reorient(Turn(c, limit, t), limit, t') == Turn(Reorient(c, limit, t'), limit, t)
  {
    var lhs := Reorient(Turn(c, limit, t), limit, t');
    var rhs := Turn(Reorient(c, limit, t'), limit, t);
    forall q
      ensures q in lhs <==> q in rhs
      ensures q in lhs ==> lhs[q] == rhs[q]
    {
      TurnAt(c, limit, t, q);
      TurnAt(Reorient(c, limit, t'), limit, t, q);
      MovedKeepsSlice(limit, t.Inverted(), q);
    }
  }

  /** Where the entry found at q after two equal twists came from. */
  function Back2(limit: int, t: Twist): Pos -> Pos {
    q => Moved(limit, t.Inverted(), Moved(limit, t.Inverted(), q))
  }

  /** Two equal twists turn each slice piece twice, which leaves its labels as
      they were: only the positions move. */
  lemma TurnColorsTwice(c: map<Pos, Labels>, limit: int, t: Twist)
    ensures PulledBack(c, TurnColors(TurnColors(c, limit, t), limit, t), Back2(limit, t))
  {
    var c1 := TurnColors(c, limit, t);
    var c2 := TurnColors(c1, limit, t);
    forall q
      ensures q in c2 <==> Back2(limit, t)(q) in c
      ensures q in c2 ==> c2[q] == c[Back2(limit, t)(q)]
    {
      var q1 := Back(limit, t)(q);
      TurnColorsAt(c1, limit, t, q);
      TurnColorsAt(c, limit, t, q1);
      MovedKeepsSlice(limit, t.Inverted(), q);
      if q in c2 {
        RotatedTwice(c[Back2(limit, t)(q)], t.SliceAxis());
      }
    }
  }

  /** A quarter turn applied four times is the identity on the colour view. */
  lemma TurnColorsFour(c: map<Pos, Labels>, limit: int, t: Twist)
    ensures TurnColors(TurnColors(TurnColors(TurnColors(c, limit, t), limit, t), limit, t), limit, t) == c
  {
    var c2 := TurnColors(TurnColors(c, limit, t), limit, t);
    var c4 := TurnColors(TurnColors(c2, limit, t), limit, t);
    TurnColorsTwice(c, limit, t);
    TurnColorsTwice(c2, limit, t);
    forall q
      ensures Back2(limit, t)(Back2(limit, t)(q)) == q
    {
      var i := t.Inverted();
      var q2 := Moved(limit, i, Moved(limit, i, q));
      assert Back2(limit, t)(q) == q2;
      assert Back2(limit, t)(q2) == Moved(limit, i, Moved(limit, i, q2));
      MovedFour(limit, i, q);
    }
    PulledBackTwice(c, c2, c4, Back2(limit, t), Back2(limit, t));
  }

  /** A twist followed by its inverse is the identity on the colour view. */
  lemma TurnColorsUndo(c: map<Pos, Labels>, limit: int, t: Twist)
    ensures TurnColors(TurnColors(c, limit, t), limit, t.Inverted()) == c
  {
    var i := t.Inverted();
    var o := Reorient(c, limit, t);
    TurnReorient(o, limit, t, i);
    assert TurnColors(TurnColors(c, limit, t), limit, i) == Turn(Turn(Reorient(o, limit, i), limit, t), limit, i);
    ReorientTwice(c, limit, t, i);
    TurnUndo(c, limit, t);
  }

  /** The solved-state label on one axis: `plus` on the positive outer face,
      `minus` on the negative one, none inside. */
  function InitLabel(limit: int, n: int, plus: Color, minus: Color): (r: Option<Color>)
    requires plus != minus
    ensures r == Some(plus) <==> n == limit
    ensures r == Some(minus) <==> n == -limit && n != limit
    ensures r == None <==> !Extreme(limit, n)
  {
    if n == limit then Some(plus) else if n == -limit then Some(minus) else None
  }

  /** The solved-state labels of the piece at p: orange/red on x, yellow/white
      on y, green/blue on z. */
  function InitColors(limit: int, p: Pos): (r: Labels)
    ensures forall a :: r.Get(a).Some? <==> Extreme(limit, p.Coord(a))
  {
    Labels(InitLabel(limit, p.x, Orange, Red),
           InitLabel(limit, p.y, Yellow, White),
           InitLabel(limit, p.z, Green, Blue))
  }

  /** The piece map after a sequence of slice rotations, first one first. */
  function Run<T>(m: map<Pos, T>, limit: int, ts: seq<Twist>): map<Pos, T>
    decreases |ts|
  {
    if ts == [] then m else Run(Turn(m, limit, ts[0]), limit, ts[1..])
  }

  /** The colour view after a sequence of slice rotations, first one first. */
  function RunColors(c: map<Pos, Labels>, limit: int, ts: seq<Twist>): map<Pos, Labels>
    decreases |ts|
  {
    if ts == [] then c else RunColors(TurnColors(c, limit, ts[0]), limit, ts[1..])
  }

  /** Running a + b is running a, then b. */
  lemma {:induction false} RunAppend<T>(m: map<Pos, T>, limit: int, a: seq<Twist>, b: seq<Twist>)
    ensures Run(m, limit, a + b) == Run(Run(m, limit, a), limit, b)
    decreases |a|
  {
    if a == [] {
      assert a + b == b;
    } else {
      assert (a + b)[1..] == a[1..] + b;
      RunAppend(Turn(m, limit, a[0]), limit, a[1..], b);
    }
  }

  /** Running a + b is running a, then b, on the colour view. */
  lemma {:induction false} RunColorsAppend(c: map<Pos, Labels>, limit: int, a: seq<Twist>, b: seq<Twist>)
    ensures RunColors(c, limit, a + b) == RunColors(RunColors(c, limit, a), limit, b)
    decreases |a|
  {
    if a == [] {
      assert a + b == b;
    } else {
      assert (a + b)[1..] == a[1..] + b;
      RunColorsAppend(TurnColors(c, limit, a[0]), limit, a[1..], b);
    }
  }

  /** After any sequence of rotations the piece map still covers the
      coordinate cube once, with every piece it started with. */
  lemma {:induction false} RunBijection<T>(m: map<Pos, T>, limit: int, ts: seq<Twist>)
    requires CoversCube(limit, m.Keys) && Distinct(m)
    ensures CoversCube(limit, Run(m, limit, ts).Keys)
    ensures Distinct(Run(m, limit, ts)) && Run(m, limit, ts).Values == m.Values
    decreases |ts|
  {
    if ts != [] {
      TurnCoversCube(m, limit, ts[0]);
      TurnDistinct(m, limit, ts[0]);
      RunBijection(Turn(m, limit, ts[0]), limit, ts[1..]);
    }
  }

  /** After any sequence of rotations the shell invariant still holds. */
  lemma {:induction false} RunShell(c: map<Pos, Labels>, limit: int, ts: seq<Twist>)
    requires Shell(limit, c)
    ensures Shell(limit, RunColors(c, limit, ts))
    decreases |ts|
  {
    if ts != [] {
      TurnColorsShell(c, limit, ts[0]);
      RunShell(TurnColors(c, limit, ts[0]), limit, ts[1..]);
    }
  }

  /** After any sequence of rotations the core and the face centres hold the
      pieces they held before. */
  lemma {:induction false} RunKeepsCentre<T>(m: map<Pos, T>, limit: int, ts: seq<Twist>, p: Pos)
    requires p in m && IsCentre(limit, p)
    ensures p in Run(m, limit, ts) && Run(m, limit, ts)[p] == m[p]
    decreases |ts|
  {
    if ts != [] {
      TurnKeepsCentre(m, limit, ts[0], p);
      RunKeepsCentre(Turn(m, limit, ts[0]), limit, ts[1..], p);
    }
  }

  /** The three kinds of named move: a quarter turn, its inverse (suffix i) and
      a double turn (suffix 2). */
  datatype Kind = Quarter | Inverse | Double

  /** One of the eighteen named moves. */
  datatype Move = Move(face: Face, kind: Kind)

  /** The slice rotations a named move performs: the double turn is the
      quarter turn twice. */
  function Twists(mv: Move): seq<Twist> {
    match mv.kind
    case Quarter => [Twist(mv.face, false)]
    case Inverse => [Twist(mv.face, true)]
    case Double => [Twist(mv.face, false), Twist(mv.face, false)]
  }

  /** The slice rotations of a sequence of moves, in order. */
  function Expand(moves: seq<Move>): seq<Twist> {
    if moves == [] then [] else Twists(moves[0]) + Expand(moves[1..])
  }

  lemma {:induction false} ExpandAppend(a: seq<Move>, b: seq<Move>)
    ensures Expand(a + b) == Expand(a) + Expand(b)
  {
    if a == [] {
      assert a + b == b;
    } else {
      assert (a + b)[1..] == a[1..] + b;
      ExpandAppend(a[1..], b);
    }
  }

  /** Run of one rotation is that rotation. */
  lemma RunOne<T>(m: map<Pos, T>, c: map<Pos, Labels>, limit: int, t: Twist)
    ensures Run(m, limit, [t]) == Turn(m, limit, t)
    ensures RunColors(c, limit, [t]) == TurnColors(c, limit, t)
  {
    assert [t][1..] == [];
  }

  /** Run of two rotations, unfolded. */
  lemma RunPair<T>(m: map<Pos, T>, c: map<Pos, Labels>, limit: int, t1: Twist, t2: Twist)
    ensures Run(m, limit, [t1, t2]) == Turn(Turn(m, limit, t1), limit, t2)
    ensures RunColors(c, limit, [t1, t2]) == TurnColors(TurnColors(c, limit, t1), limit, t2)
  {
    assert [t1, t2][1..] == [t2];
    RunOne(Turn(m, limit, t1), TurnColors(c, limit, t1), limit, t2);
  }

  /** Run of four equal rotations, unfolded. */
  lemma RunFourSame<T>(m: map<Pos, T>, c: map<Pos, Labels>, limit: int, t: Twist)
    ensures Run(m, limit, [t, t, t, t]) == Turn(Turn(Turn(Turn(m, limit, t), limit, t), limit, t), limit, t)
    ensures RunColors(c, limit, [t, t, t, t]) ==
      TurnColors(TurnColors(TurnColors(TurnColors(c, limit, t), limit, t), limit, t), limit, t)
  {
    RunAppend(m, limit, [t, t], [t, t]);
    RunColorsAppend(c, limit, [t, t], [t, t]);
    assert [t, t] + [t, t] == [t, t, t, t];
    RunPair(m, c, limit, t, t);
    RunPair(Run(m, limit, [t, t]), RunColors(c, limit, [t, t]), limit, t, t);
  }

  /** A quarter turn applied four times leaves every piece, and every label,
      where it was. */
  lemma QuarterFourTimes<T>(m: map<Pos, T>, c: map<Pos, Labels>, limit: int, f: Face)
    ensures var ts := Expand([Move(f, Quarter), Move(f, Quarter), Move(f, Quarter), Move(f, Quarter)]);
      Run(m, limit, ts) == m && RunColors(c, limit, ts) == c
  {
    var t := Twist(f, false);
    var q := Move(f, Quarter);
    assert Expand([q, q, q, q]) == [t, t, t, t] by {
      assert Expand([q]) == [t];
      assert Expand([q, q]) == [t] + Expand([q]);
      assert Expand([q, q, q]) == [t] + Expand([q, q]);
    }
    RunFourSame(m, c, limit, t);
    TurnFour(m, limit, t);
    TurnColorsFour(c, limit, t);
  }

  /** A quarter turn followed by its inverse, in either order, leaves every
      piece and every label where it was. */
  lemma InverseCancels<T>(m: map<Pos, T>, c: map<Pos, Labels>, limit: int, f: Face)
    ensures var ts := Expand([Move(f, Quarter), Move(f, Inverse)]);
      Run(m, limit, ts) == m && RunColors(c, limit, ts) == c
    ensures var ts := Expand([Move(f, Inverse), Move(f, Quarter)]);
      Run(m, limit, ts) == m && RunColors(c, limit, ts) == c
  {
    var t := Twist(f, false);
    var q, i := Move(f, Quarter), Move(f, Inverse);
    assert Expand([q, i]) == [t, t.Inverted()] by {
      assert Expand([i]) == [t.Inverted()];
    }
    assert Expand([i, q]) == [t.Inverted(), t] by {
      assert Expand([q]) == [t];
    }
    RunPair(m, c, limit, t, t.Inverted());
    RunPair(m, c, limit, t.Inverted(), t);
    TurnUndo(m, limit, t);
    TurnColorsUndo(c, limit, t);
    assert t.Inverted().Inverted() == t;
    TurnUndo(m, limit, t.Inverted());
    TurnColorsUndo(c, limit, t.Inverted());
  }

  /** A quarter move run twice, one run after the other, is the double move
      run once. */
  lemma TwoQuarters<T>(m1: map<Pos, T>, c1: map<Pos, Labels>, m2: map<Pos, T>, c2: map<Pos, Labels>,
                       m3: map<Pos, T>, c3: map<Pos, Labels>, limit: int, f: Face)
    requires m2 == Run(m1, limit, Twists(Move(f, Quarter))) && c2 == RunColors(c1, limit, Twists(Move(f, Quarter)))
    requires m3 == Run(m2, limit, Twists(Move(f, Quarter))) && c3 == RunColors(c2, limit, Twists(Move(f, Quarter)))
    ensures m3 == Run(m1, limit, Twists(Move(f, Double))) && c3 == RunColors(c1, limit, Twists(Move(f, Double)))
  {
    var t := Twist(f, false);
    RunOne(m1, c1, limit, t);
    RunOne(m2, c2, limit, t);
    RunPair(m1, c1, limit, t, t);
  }

  /** A double turn is the quarter turn applied twice, and two double turns
      leave every piece and every label where it was. */
  lemma DoubleIsTwoQuarters<T>(m: map<Pos, T>, c: map<Pos, Labels>, limit: int, f: Face)
    ensures Expand([Move(f, Double)]) == Expand([Move(f, Quarter), Move(f, Quarter)])
    ensures var ts := Expand([Move(f, Double), Move(f, Double)]);
      Run(m, limit, ts) == m && RunColors(c, limit, ts) == c
  {
    var t := Twist(f, false);
    var q, d := Move(f, Quarter), Move(f, Double);
    assert Expand([q]) == [t];
    assert Expand([d]) == [t, t];
    assert Expand([d, d]) == [t, t, t, t] by {
      assert Expand([d, d]) == [t, t] + Expand([d]);
    }
    RunFourSame(m, c, limit, t);
    TurnFour(m, limit, t);
    TurnColorsFour(c, limit, t);
  }
}
