/** The controller of rubik/controller.py without its view and its logger:
    it owns a cube and drives it by move names. */
module Controller {
  import opened Geometry
  import opened Model
  import opened Notation

  class Controller {
    const cube: Rubik

    /** A controller on a fresh solved cube built for `size`. */
    constructor (size: nat)
      ensures cube.Valid() && cube.size == size && fresh(cube) && fresh(cube.pieces.Values)
      ensures forall p :: p in cube.pieces ==> cube.pieces[p].Faces() == InitColors(cube.limit, p)
    {
      cube := new Rubik(size);
    }

    /** Calls the cube method that performs mv. */
    method Perform(mv: Move)
      requires cube.Valid()
      modifies cube, cube.pieces.Values
      ensures cube.Applied(Twists(mv))
    {
      match mv {
        case Move(R, Quarter) => cube.R();
        case Move(R, Inverse) => cube.Ri();
        case Move(R, Double) => cube.R2();
        case Move(L, Quarter) => cube.L();
        case Move(L, Inverse) => cube.Li();
        case Move(L, Double) => cube.L2();
        case Move(U, Quarter) => cube.U();
        case Move(U, Inverse) => cube.Ui();
        case Move(U, Double) => cube.U2();
        case Move(D, Quarter) => cube.D();
        case Move(D, Inverse) => cube.Di();
        case Move(D, Double) => cube.D2();
        case Move(F, Quarter) => cube.F();
        case Move(F, Inverse) => cube.Fi();
        case Move(F, Double) => cube.F2();
        case Move(B, Quarter) => cube.B();
        case Move(B, Inverse) => cube.Bi();
        case Move(B, Double) => cube.B2();
      }
    }

    /** Looks the name up on the cube and calls it: true and the move
        performed when the name is one of the eighteen moves, false and the
        cube untouched otherwise. */
    method MakeMoveCallback(move: string) returns (ok: bool)
      requires cube.Valid()
      modifies cube, cube.pieces.Values
      ensures ok <==> Parse(move).Some?
      ensures ok ==> cube.Applied(Twists(Parse(move).value))
      ensures !ok ==> unchanged(cube) && unchanged(cube.pieces.Values)
    {
      var found := Parse(move);
      if found.None? {
        return false;
      }
      Perform(found.value);
      return true;
    }

    /** Performs the moves named by the words of `notation`, in order. At the
        first word that is not a move name it stops, with the moves before it
        performed, none after it, and returns false; when every word is a move
        name it returns true. */
    method ApplyNotation(notation: string) returns (ok: bool)
      requires cube.Valid()
      modifies cube, cube.pieces.Values
      ensures ok <==> forall w :: w in Split(notation) ==> Parse(w).Some?
      ensures cube.Applied(Expand(KnownPrefix(Split(notation))))
    {
      var words := Split(notation);
      ghost var done: seq<Move> := [];
      ghost var m0, c0 := cube.pieces, cube.Colors();
      var i := 0;
      while i < |words|
        invariant 0 <= i <= |words| && |done| == i
        invariant forall j :: 0 <= j < i ==> Parse(words[j]) == Some(done[j])
        invariant cube.Applied(Expand(done))
      {
        var found := Parse(words[i]);
        if found.None? {
          ScanStopped(words, done);
          return false;
        }
        ghost var next := done + [found.value];
        assert forall j :: 0 <= j <= i ==> Parse(words[j]) == Some(next[j]);
        Perform(found.value);
        Step(m0, c0, cube.limit, done, found.value);
        done := next;
        i := i + 1;
      }
      ScanStopped(words, done);
      return true;
    }

    /** Applies the chess pattern: R2 L2 B2 F2 U2 D2. */
    method ChessPattern()
      requires cube.Valid()
      modifies cube, cube.pieces.Values
      ensures cube.Applied(Expand(ChessMoves))
    {
      ChessNotation();
      var ok := ApplyNotation(Chess);
    }
  }

  /** The notation of the chess pattern. */
  const Chess := "R2 L2 B2 F2 U2 D2"

  /** The moves of the chess pattern: the six double turns, in order. */
  const ChessMoves :=
    [Move(R, Double), Move(L, Double), Move(B, Double), Move(F, Double), Move(U, Double), Move(D, Double)]

  /** The chess notation names, word by word, the six double turns R2 L2 B2
      F2 U2 D2. */
  lemma ChessNotation()
    ensures KnownPrefix(Split(Chess)) == ChessMoves
  {
    ChessWords();
    ChessNames();
  }

  /** The six names of the chess pattern look up its six double turns. */
  lemma ChessNames()
    ensures KnownPrefix(["R2", "L2", "B2", "F2", "U2", "D2"]) == ChessMoves
  {
    var words := ["R2", "L2", "B2", "F2", "U2", "D2"];
    forall j | 0 <= j < 6
      ensures Parse(words[j]) == Some(ChessMoves[j])
    {
      ParseName(ChessMoves[j]);
      assert Name(ChessMoves[j]) == words[j];
    }
    KnownPrefixIs(words, ChessMoves);
  }

  /** The chess notation splits into its six move names. */
  lemma ChessWords()
    ensures Split(Chess) == ["R2", "L2", "B2", "F2", "U2", "D2"]
  {
    var words := ["R2", "L2", "B2", "F2", "U2", "D2"];
    assert Join(words) == Chess;
    forall w | w in words
      ensures w != [] && NoSpace(w)
    {
    }
    SplitJoin(words);
  }

  /** A notation of spaces alone, the empty one included, performs no move:
      by ApplyNotation's contract it leaves every piece and every label
      where it was. */
  lemma BlankNotation<T>(notation: string, m: map<Pos, T>, c: map<Pos, Labels>, limit: int)
    requires AllSpace(notation)
    ensures Run(m, limit, Expand(KnownPrefix(Split(notation)))) == m
    ensures RunColors(c, limit, Expand(KnownPrefix(Split(notation)))) == c
  {
    SplitEmpty(notation);
  }

  /** Running one more move after the moves done runs the moves done and
      then that move's twists. */
  lemma Step<T>(m: map<Pos, T>, c: map<Pos, Labels>, limit: int, done: seq<Move>, mv: Move)
    ensures Run(m, limit, Expand(done + [mv])) == Run(Run(m, limit, Expand(done)), limit, Twists(mv))
    ensures RunColors(c, limit, Expand(done + [mv])) == RunColors(RunColors(c, limit, Expand(done)), limit, Twists(mv))
  {
    ExpandAppend(done, [mv]);
    assert Expand([mv]) == Twists(mv) + Expand([]);
    assert Expand([mv]) == Twists(mv);
    RunAppend(m, limit, Expand(done), Twists(mv));
    RunColorsAppend(c, limit, Expand(done), Twists(mv));
  }
}
