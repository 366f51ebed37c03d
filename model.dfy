/** The mutable cube state of rubik/model.py: pieces whose labels are
    reassigned in place, and the cube object that owns the position-to-piece
    map and rebuilds it on every slice rotation. */
module Model {
  import opened Geometry

  /** A piece: three colour labels, one per axis. */
  class Piece {
    var x: Option<Color>
    var y: Option<Color>
    var z: Option<Color>

    constructor (colors: Labels)
      ensures Faces() == colors
    {
      x, y, z := colors.x, colors.y, colors.z;
    }

    /** The piece's labels as a value. */
    function Faces(): Labels
      reads this
    {
      Labels(x, y, z)
    }

    /** Turns the piece about `axis`: the two labels not bound to it trade
        places, the third stays. */
    method Rotate(axis: Axis)
      modifies this
      ensures Faces() == old(Faces()).Rotated(axis)
    {
      if axis == X {
        x, y, z := x, z, y;
      } else if axis == Y {
        x, y, z := z, y, x;
      } else if axis == Z {
        x, y, z := y, x, z;
      }
    }
  }

  /** p comes before the cursor (x, y, z) in the order the construction loops
      visit positions. */
  predicate Before(p: Pos, x: int, y: int, z: int) {
    p.x < x || (p.x == x && (p.y < y || (p.y == y && p.z < z)))
  }

  /** Visiting (x, y, z) advances the cursor by one position. */
  lemma BeforeNext(x: int, y: int, z: int)
    ensures forall p :: Before(p, x, y, z + 1) <==> Before(p, x, y, z) || p == Pos(x, y, z)
  {
  }

  /** Past the last z of a row is the start of the next row, and past the
      last row of a plane is the start of the next plane. */
  lemma BeforeWrap(limit: int, x: int, y: int)
    ensures forall p :: InCube(limit, p) ==> (Before(p, x, y, limit + 1) <==> Before(p, x, y + 1, -limit))
    ensures forall p :: InCube(limit, p) ==> (Before(p, x, limit + 1, -limit) <==> Before(p, x + 1, -limit, -limit))
  {
  }

  /** A cube built for `size`, with limit = size / 2: every position of
      [-limit, limit]^3 (size^3 of them when size is odd, (size + 1)^3 when
      it is even) holds its own piece, and the labels obey the shell rule. */
  class Rubik {
    const size: nat
    const limit: int
    var pieces: map<Pos, Piece>

    ghost predicate Valid()
      reads this, pieces.Values
    {
      limit == size / 2 &&
      CoversCube(limit, pieces.Keys) && Distinct(pieces) && Shell(limit, Colors())
    }

    /** What a renderer sees: the labels at every position. */
    function Colors(): map<Pos, Labels>
      reads this, pieces.Values
    {
      map p | p in pieces :: pieces[p].Faces()
    }

    constructor (size: nat)
      ensures Valid() && this.size == size && limit == size / 2
      ensures |pieces| == (2 * limit + 1) * (2 * limit + 1) * (2 * limit + 1)
      ensures size % 2 == 1 ==> |pieces| == size * size * size
      ensures forall p :: p in pieces ==> pieces[p].Faces() == InitColors(limit, p)
      ensures fresh(pieces.Values)
    {
      this.size := size;
      limit := size / 2;
      pieces := map[];
      new;
      GenerateInitPieces();
    }

    /** The piece at a position, or None when the position is not a key. */
    function At(position: Pos): (r: Option<Piece>)
      requires Valid()
      reads this, pieces.Values
      ensures r.Some? <==> InCube(limit, position)
      ensures r.Some? ==> r.value == pieces[position] && r.value.Faces() == Colors()[position]
    {
      if position in pieces then Some(pieces[position]) else None
    }

    /** Files a fresh piece in its solved colours at every position of the
        coordinate cube, x outermost, z innermost. Every key the map already
        has is a position of the cube, so each is overwritten and the map
        ends up holding the fresh pieces alone. */
    method GenerateInitPieces()
      requires limit == size / 2
      requires forall p :: p in pieces ==> InCube(limit, p)
      modifies this
      ensures Valid()
      ensures |pieces| == (2 * limit + 1) * (2 * limit + 1) * (2 * limit + 1)
      ensures forall p :: p in pieces ==> pieces[p].Faces() == InitColors(limit, p)
      ensures fresh(pieces.Values)
    {
      var ps: map<Pos, Piece> := map[];
      var x: int := -limit;
      while x <= limit
        invariant -limit <= x <= limit + 1
        invariant forall p :: p in ps <==> InCube(limit, p) && Before(p, x, -limit, -limit)
        invariant forall p :: p in ps ==> fresh(ps[p]) && ps[p].Faces() == InitColors(limit, p)
        invariant Distinct(ps)
      {
        var y: int := -limit;
        while y <= limit
          invariant -limit <= y <= limit + 1
          invariant forall p :: p in ps <==> InCube(limit, p) && Before(p, x, y, -limit)
          invariant forall p :: p in ps ==> fresh(ps[p]) && ps[p].Faces() == InitColors(limit, p)
          invariant Distinct(ps)
        {
          var z: int := -limit;
          while z <= limit
            invariant -limit <= z <= limit + 1
            invariant forall p :: p in ps <==> InCube(limit, p) && Before(p, x, y, z)
            invariant forall p :: p in ps ==> fresh(ps[p]) && ps[p].Faces() == InitColors(limit, p)
            invariant Distinct(ps)
          {
            var position := Pos(x, y, z);
            var piece := new Piece(InitColors(limit, position));
            ps := ps[position := piece];
            BeforeNext(x, y, z);
            z := z + 1;
          }
          BeforeWrap(limit, x, y);
          y := y + 1;
        }
        BeforeWrap(limit, x, y);
        x := x + 1;
      }
      pieces := ps;
      Solved();
    }

    /** A map holding a distinct piece in its solved colours at every position
        of the cube, and nothing else, is a valid cube of size^3 pieces. */
    lemma Solved()
      requires limit == size / 2 && CoversCube(limit, pieces.Keys) && Distinct(pieces)
      requires forall p :: p in pieces ==> pieces[p].Faces() == InitColors(limit, p)
      ensures Valid() && |pieces| == (2 * limit + 1) * (2 * limit + 1) * (2 * limit + 1)
    {
      CubeSize(limit, pieces.Keys);
      forall p | p in pieces
        ensures Colors()[p] == InitColors(limit, p)
      {
      }
    }

    /** One slice rotation. The pieces whose coordinate on the face's axis is
        sign * limit are re-keyed through the table for the turn's direction
        and each is turned once about the axis; every other piece keeps its
        key. The map is rebuilt and replaces the old one. */
    method MakeRotation(face: Face, inverse: bool)
      requires Valid()
      modifies this, pieces.Values
      ensures Valid()
      ensures pieces == Turn(old(pieces), limit, Twist(face, inverse))
      ensures pieces.Values == old(pieces.Values)
      ensures Colors() == TurnColors(old(Colors()), limit, Twist(face, inverse))
    {
      ghost var c0 := Colors();
      var ps := pieces;
      assert CoversCube(limit, ps.Keys) && Distinct(ps) && Shell(limit, c0);
      var newPieces := Regroup(ps, face, inverse);
      pieces := newPieces;
      Rebuilt(ps, c0, Twist(face, inverse));
    }

    /** The loop of MakeRotation: visits every entry of ps once, files its
        piece under its new key, and turns the pieces of the slice. */
    method Regroup(ps: map<Pos, Piece>, face: Face, inverse: bool) returns (newPieces: map<Pos, Piece>)
      requires Distinct(ps)
      modifies ps.Values
      ensures newPieces == Turn(ps, limit, Twist(face, inverse))
      ensures forall p :: p in ps ==>
        ps[p].Faces() == if OnSlice(limit, Twist(face, inverse), p) then old(ps[p].Faces()).Rotated(Twist(face, inverse).SliceAxis()) else old(ps[p].Faces())
    {
      ghost var t := Twist(face, inverse);
      var rotation := face.Rotation();
      var axis := AxisOf(rotation);
      var sign := SignOf(rotation);
      assert axis == t.SliceAxis();
      newPieces := map[];
      var todo := ps.Keys;
      while todo != {}
        invariant todo <= ps.Keys
        invariant Rekeyed(ps, todo, newPieces, limit, t)
        invariant forall p :: p in ps ==>
          ps[p].Faces() == if p !in todo && OnSlice(limit, t, p) then old(ps[p].Faces()).Rotated(axis) else old(ps[p].Faces())
        decreases todo
      {
        var position :| position in todo;
        var piece := ps[position];
        RekeyedStep(ps, todo, newPieces, position, limit, t);
        var newPosition := position;
        if position.Coord(axis) == sign * limit {
          var direction := Direction(rotation, inverse);
          newPosition := NewPosition(direction, position);
          piece.Rotate(axis);
        }
        newPieces := newPieces[newPosition := piece];
        todo := todo - {position};
      }
      RekeyedAll(ps, newPieces, limit, t);
    }

    /** The map the rotation loop leaves behind, each slice piece turned once,
        is the turned map and keeps the cube valid. */
    lemma Rebuilt(ps: map<Pos, Piece>, c0: map<Pos, Labels>, t: Twist)
      requires limit == size / 2
      requires CoversCube(limit, ps.Keys) && Distinct(ps) && Shell(limit, c0)
      requires forall p :: p in c0 <==> p in ps
      requires pieces == Turn(ps, limit, t)
      requires forall p :: p in ps ==>
        ps[p].Faces() == if OnSlice(limit, t, p) then c0[p].Rotated(t.SliceAxis()) else c0[p]
      ensures pieces.Values == ps.Values
      ensures Colors() == TurnColors(c0, limit, t)
      ensures Valid()
    {
      var c1 := Reorient(c0, limit, t);
      forall p | p in c1
        ensures Moved(limit, t, p) in Colors() && Colors()[Moved(limit, t, p)] == c1[p]
      {
        MovedUndo(limit, t, p);
        TurnAt(ps, limit, t, Moved(limit, t, p));
      }
      forall q | q in Colors()
        ensures Moved(limit, t.Inverted(), q) in c1
      {
        TurnAt(ps, limit, t, q);
      }
      TurnCharacterized(c1, Colors(), limit, t);
      TurnCoversCube(ps, limit, t);
      TurnDistinct(ps, limit, t);
      TurnColorsShell(c0, limit, t);
    }

    /** The cube after the twists ts, run from the state before the call: the
        piece map and the colour view, with validity and the set of pieces
        kept. */
    twostate predicate Applied(ts: seq<Twist>)
      reads this, pieces.Values
    {
      Valid() && pieces.Values == old(pieces.Values) &&
      pieces == Run(old(pieces), limit, ts) && Colors() == RunColors(old(Colors()), limit, ts)
    }

    /** Quarter turn of the right face. */
    method R()
      requires Valid()
      modifies this, pieces.Values
      ensures Applied(Twists(Move(Face.R, Quarter)))
    {
      MakeRotation(Face.R, false);
      RunOne(old(pieces), old(Colors()), limit, Twist(Face.R, false));
    }

    /** Inverse quarter turn of the right face. */
    method Ri()
      requires Valid()
      modifies this, pieces.Values
      ensures Applied(Twists(Move(Face.R, Inverse)))
    {
      MakeRotation(Face.R, true);
      RunOne(old(pieces), old(Colors()), limit, Twist(Face.R, true));
    }

    /** Double turn of the right face: R twice. */
    method R2()
      requires Valid()
      modifies this, pieces.Values
      ensures Applied(Twists(Move(Face.R, Double)))
    {
      ghost var m1, c1 := pieces, Colors();
      R();
      ghost var m2, c2 := pieces, Colors();
      R();
      TwoQuarters(m1, c1, m2, c2, pieces, Colors(), limit, Face.R);
    }

    /** Quarter turn of the left face. */
    method L()
      requires Valid()
      modifies this, pieces.Values
      ensures Applied(Twists(Move(Face.L, Quarter)))
    {
      MakeRotation(Face.L, false);
      RunOne(old(pieces), old(Colors()), limit, Twist(Face.L, false));
    }

    /** Inverse quarter turn of the left face. */
    method Li()
      requires Valid()
      modifies this, pieces.Values
      ensures Applied(Twists(Move(Face.L, Inverse)))
    {
      MakeRotation(Face.L, true);
      RunOne(old(pieces), old(Colors()), limit, Twist(Face.L, true));
    }

    /** Double turn of the left face: L twice. */
    method L2()
      requires Valid()
      modifies this, pieces.Values
      ensures Applied(Twists(Move(Face.L, Double)))
    {
      ghost var m1, c1 := pieces, Colors();
      L();
      ghost var m2, c2 := pieces, Colors();
      L();
      TwoQuarters(m1, c1, m2, c2, pieces, Colors(), limit, Face.L);
    }

    /** Quarter turn of the front face. */
    method F()
      requires Valid()
      modifies this, pieces.Values
      ensures Applied(Twists(Move(Face.F, Quarter)))
    {
      MakeRotation(Face.F, false);
      RunOne(old(pieces), old(Colors()), limit, Twist(Face.F, false));
    }

    /** Inverse quarter turn of the front face. */
    method Fi()
      requires Valid()
      modifies this, pieces.Values
      ensures Applied(Twists(Move(Face.F, Inverse)))
    {
      MakeRotation(Face.F, true);
      RunOne(old(pieces), old(Colors()), limit, Twist(Face.F, true));
    }

    /** Double turn of the front face: F twice. */
    method F2()
      requires Valid()
      modifies this, pieces.Values
      ensures Applied(Twists(Move(Face.F, Double)))
    {
      ghost var m1, c1 := pieces, Colors();
      F();
      ghost var m2, c2 := pieces, Colors();
      F();
      TwoQuarters(m1, c1, m2, c2, pieces, Colors(), limit, Face.F);
    }

    /** Quarter turn of the back face. */
    method B()
      requires Valid()
      modifies this, pieces.Values
      ensures Applied(Twists(Move(Face.B, Quarter)))
    {
      MakeRotation(Face.B, false);
      RunOne(old(pieces), old(Colors()), limit, Twist(Face.B, false));
    }

    /** Inverse quarter turn of the back face. */
    method Bi()
      requires Valid()
      modifies this, pieces.Values
      ensures Applied(Twists(Move(Face.B, Inverse)))
    {
      MakeRotation(Face.B, true);
      RunOne(old(pieces), old(Colors()), limit, Twist(Face.B, true));
    }

    /** Double turn of the back face: B twice. */
    method B2()
      requires Valid()
      modifies this, pieces.Values
      ensures Applied(Twists(Move(Face.B, Double)))
    {
      ghost var m1, c1 := pieces, Colors();
      B();
      ghost var m2, c2 := pieces, Colors();
      B();
      TwoQuarters(m1, c1, m2, c2, pieces, Colors(), limit, Face.B);
    }

    /** Quarter turn of the up face. */
    method U()
      requires Valid()
      modifies this, pieces.Values
      ensures Applied(Twists(Move(Face.U, Quarter)))
    {
      MakeRotation(Face.U, false);
      RunOne(old(pieces), old(Colors()), limit, Twist(Face.U, false));
    }

    /** Inverse quarter turn of the up face. */
    method Ui()
      requires Valid()
      modifies this, pieces.Values
      ensures Applied(Twists(Move(Face.U, Inverse)))
    {
      MakeRotation(Face.U, true);
      RunOne(old(pieces), old(Colors()), limit, Twist(Face.U, true));
    }

    /** Double turn of the up face: U twice. */
    method U2()
      requires Valid()
      modifies this, pieces.Values
      ensures Applied(Twists(Move(Face.U, Double)))
    {
      ghost var m1, c1 := pieces, Colors();
      U();
      ghost var m2, c2 := pieces, Colors();
      U();
      TwoQuarters(m1, c1, m2, c2, pieces, Colors(), limit, Face.U);
    }

    /** Quarter turn of the down face. */
    method D()
      requires Valid()
      modifies this, pieces.Values
      ensures Applied(Twists(Move(Face.D, Quarter)))
    {
      MakeRotation(Face.D, false);
      RunOne(old(pieces), old(Colors()), limit, Twist(Face.D, false));
    }

    /** Inverse quarter turn of the down face. */
    method Di()
      requires Valid()
      modifies this, pieces.Values
      ensures Applied(Twists(Move(Face.D, Inverse)))
    {
      MakeRotation(Face.D, true);
      RunOne(old(pieces), old(Colors()), limit, Twist(Face.D, true));
    }

    /** Double turn of the down face: D twice. */
    method D2()
      requires Valid()
      modifies this, pieces.Values
      ensures Applied(Twists(Move(Face.D, Double)))
    {
      ghost var m1, c1 := pieces, Colors();
      D();
      ghost var m2, c2 := pieces, Colors();
      D();
      TwoQuarters(m1, c1, m2, c2, pieces, Colors(), limit, Face.D);
    }
  }
}
