# Rubik cube engine: a verified Dafny model

This project models the engine of a small Rubik's cube program: the cube
state and its slice rotations (`rubik/model.py`), and the controller that
drives the cube by move names (`rubik/controller.py`).

A cube built for `size` has `limit = size / 2`. It holds one `Piece` object
at every position of `[-limit, limit]^3`, in a map from positions to
pieces. A piece carries three optional colour labels, one per axis.

A slice rotation works on the pieces whose coordinate on the face's axis is
`sign * limit`. Each such piece is filed under a new position, read from a
six-entry table of coordinate permutations. It is also turned once about the
axis: its two labels off that axis trade places, so the turn of a piece
(`Piece.rotate`) is a transposition. All other pieces keep their keys, and a
new map replaces the old one.

The eighteen moves `R Ri R2 L Li L2 F Fi F2 B Bi B2 U Ui U2 D Di D2` are
slice rotations. The double moves are the quarter move twice. The
controller looks a name up on the cube and calls it. A notation string is
split on whitespace, and its words are performed one after another.

Modules:

- `Geometry` (geometry.dfy) holds the values:
  - positions (`Pos`, whose `Coord` is the `x`/`y`/`z` accessor of
    `Position`), colour labels (`Labels`), axes and colours (the
    configuration constants, as enumerations);
  - the rotation table (`Direction`, `NewPosition`);
  - one rotation as a function on maps: `Turn` for the pieces and
    `TurnColors` for the labels;
  - the solved colouring (`InitColors`);
  - the eighteen moves as data (`Move`, `Twists`, `Expand`);
  - the lemmas about all of these.
- `Model` (model.dfy) holds the mutable classes `Piece` and `Rubik`. Their
  methods update fields in place, and their contracts tie each new state to
  the `Geometry` functions of the old state.
- `Notation` (notation.dfy) covers move names (`Name`, `Parse`) and
  Python's `str.split()` with no argument (`Split`).
- `Controller` (controller.dfy) holds the class `Controller` with
  `MakeMoveCallback`, `ApplyNotation` and `ChessPattern`.

The cube invariant is `Rubik.Valid`. Every rotation keeps it, and it has
three parts:

- The keys are exactly `[-limit, limit]^3`.
- The pieces are distinct objects.
- The shell rule holds: a piece has a label on an axis exactly when its
  coordinate on that axis is `limit` or `-limit`.

The state after a sequence of moves is stated through `Run`/`RunColors`
over the expanded twists (`Rubik.Applied`).

## Model

| member | source | states |
|---|---|---|
| Model.Piece.constructor | rubik/model.py:20-22 | the new piece's labels are the given triple, one per axis |
| Model.Piece.Rotate | rubik/model.py:28-35 | the new labels are the old ones turned about `axis`: for X the y and z labels trade places, for Y x and z, for Z x and y; the label on the axis itself stays |
| Geometry.Labels.Rotated | rubik/model.py:28-35 | a turned label triple keeps the label of the turning axis and takes every other label from the partner axis |
| Geometry.RotatedTwice | rubik/model.py:28-35 | turning a piece twice about the same axis restores its labels, so the turn is an involution |
| Model.Rubik.constructor | rubik/model.py:41-46 | a fresh cube has `limit = size / 2` and satisfies the invariant; it holds (2·limit+1)^3 fresh pieces, which is size^3 when size is odd, each in the solved colours of its position |
| Model.Rubik.GenerateInitPieces | rubik/model.py:72-79 | after the triple loop the map holds a fresh, distinct piece at every position of [-limit, limit]^3 and nothing else, each piece coloured by `InitColors`, so the invariant holds |
| Model.Rubik.Solved | rubik/model.py:72-79 | a map with one distinct solved piece at each cube position satisfies the invariant and has (2·limit+1)^3 entries |
| Geometry.CubeSize | rubik/model.py:72-79 | a key set that is exactly [-limit, limit]^3 has (2·limit+1)^3 elements |
| Geometry.InitLabel | rubik/model.py:56-59 | the label on one axis is the plus colour iff the coordinate is limit, the minus colour iff it is -limit and not limit, and none iff it is neither |
| Geometry.InitColors | rubik/model.py:52-70 | a solved piece has a label on an axis exactly when its coordinate there is extreme, so the shell rule holds from the start |
| Model.Rubik.At | rubik/model.py:48-50 | the lookup finds a piece exactly for positions inside the cube; the piece found is the one under that key, and its labels are the colours shown there |
| Geometry.Pos.Coord | rubik/model.py:12-14 | reading a position by axis name: X gives the first component, Y the second, Z the third |
| Geometry.AxisOf | rubik/model.py:83 | the axis of a rotation vector is the one component of magnitude 1; every other component is 0 |
| Geometry.SignOf | rubik/model.py:84 | the component sum of a rotation vector is its one nonzero component, which is 1 or -1 |
| Geometry.Face.Rotation | rubik/model.py:123-157 | each face's moves pass a rotation vector, with one component of magnitude 1 and the others 0 |
| Geometry.SliceCoord | rubik/model.py:87 | the selected slice lies at coordinate limit for a positive vector and -limit for a negative one |
| Geometry.Direction | rubik/model.py:89 | the turn direction keeps the vector's axis; without `inverse` it is the vector itself, and with `inverse` its sign is flipped |
| Geometry.NewPosition | rubik/model.py:90-101 | the table keeps the coordinate on the direction's axis |
| Geometry.NewPositionUndo | rubik/model.py:89-101 | the table entry for the negated direction undoes the entry for the direction |
| Geometry.NewPositionFour | rubik/model.py:90-101 | applying any table entry four times gives back the position |
| Geometry.Moved | rubik/model.py:87-102 | defines where one position goes under a twist: the table entry for the turn's direction when the coordinate on the face's axis is sign * limit, the position itself otherwise |
| Geometry.MovedKeepsSlice | rubik/model.py:86-105 | a rotation takes slice positions to slice positions and leaves the others outside the slice |
| Geometry.MovedUndo | rubik/model.py:86-105 | rotating with `inverse` undoes the rotation without it, position by position |
| Geometry.MovedInjective | rubik/model.py:86-106 | no two positions are sent to the same new key, so no piece of the new map overwrites another |
| Geometry.MovedInCube | rubik/model.py:86-106 | a new position is inside the cube iff the old one is |
| Geometry.MovedFour | rubik/model.py:86-105 | four equal rotations return every position to itself |
| Geometry.MovedFixesCentre | rubik/model.py:86-105 | the core and the six face centres (at most one nonzero coordinate, and that one is limit or -limit) never move |
| Geometry.Turn | rubik/model.py:85-106 | defines the rebuilt map: every entry of the old map filed under its `Moved` key (MovedInjective shows no two entries collide) |
| Geometry.TurnAt | rubik/model.py:85-106 | after a rotation the new map has a key q iff the old map had the key the inverse rotation sends q to, and it holds that key's piece |
| Geometry.TurnCharacterized | rubik/model.py:85-106 | any map that files every old piece under its moved key, and has no other keys, is the rotated map |
| Geometry.TurnMovesSlice | rubik/model.py:86-105 | a piece off the slice keeps its key; a piece on the slice is filed under the table's new position for the turn's direction |
| Geometry.TurnCoversCube | rubik/model.py:85-106 | when the keys were [-limit, limit]^3 they still are after the rotation |
| Geometry.TurnDistinct | rubik/model.py:85-106 | a rotation neither duplicates nor drops a piece object: the values stay distinct and are the same set |
| Geometry.TurnKeepsCentre | rubik/model.py:86-105 | centres and the core keep their key and their piece under every rotation |
| Geometry.TurnFour | rubik/model.py:81-106 | four equal rotations give back the same map |
| Geometry.TurnUndo | rubik/model.py:81-106 | a rotation followed by the same face's rotation with the other `inverse` gives back the same map |
| Geometry.Reorient | rubik/model.py:103 | defines the label turn of one rotation: each piece on the slice turned once about the slice axis, every other piece unchanged, for either value of `inverse` |
| Geometry.TurnColors | rubik/model.py:85-106 | defines the colours after one rotation: the slice pieces turned by `Reorient`, then every piece re-keyed as in `Turn` |
| Geometry.TurnColorsAt | rubik/model.py:86-105 | the colour at q after a rotation is the labels of the piece the inverse rotation sends q to, turned once about the axis when q is in the slice, whichever `inverse` is |
| Geometry.ReorientTwice | rubik/model.py:103 | turning every slice piece about the slice axis twice restores the colours, whatever the two turns' directions are |
| Geometry.TurnColorsShell | rubik/model.py:81-106 | a rotation keeps the shell rule: the turn of each slice piece matches its move between axes |
| Geometry.TurnColorsFour | rubik/model.py:81-106 | four equal rotations give back every colour at every position |
| Geometry.TurnColorsUndo | rubik/model.py:81-106 | a rotation followed by its inverse gives back every colour at every position |
| Model.Rubik.Regroup | rubik/model.py:85-105 | the loop over the old entries builds exactly the rotated map, and each piece of the slice, and no other, is turned once about the axis |
| Model.Rubik.Rebuilt | rubik/model.py:106 | the rebuilt map satisfies the invariant, holds the same piece objects, and shows the rotated colours |
| Model.Rubik.MakeRotation | rubik/model.py:81-106 | after one slice rotation the cube is valid, the piece map is `Turn` of the old map, the piece objects are the same, and the colours are `TurnColors` of the old colours |
| Model.Rubik.R | rubik/model.py:123 | R is one rotation about (1, 0, 0) |
| Model.Rubik.Ri | rubik/model.py:124 | Ri is one inverse rotation about (1, 0, 0) |
| Model.Rubik.R2 | rubik/model.py:125-127 | R2 is R then R |
| Model.Rubik.L | rubik/model.py:129 | L is one rotation about (-1, 0, 0) |
| Model.Rubik.Li | rubik/model.py:130 | Li is one inverse rotation about (-1, 0, 0) |
| Model.Rubik.L2 | rubik/model.py:131-133 | L2 is L then L |
| Model.Rubik.F | rubik/model.py:135 | F is one rotation about (0, 0, 1) |
| Model.Rubik.Fi | rubik/model.py:136 | Fi is one inverse rotation about (0, 0, 1) |
| Model.Rubik.F2 | rubik/model.py:137-139 | F2 is F then F |
| Model.Rubik.B | rubik/model.py:141 | B is one rotation about (0, 0, -1) |
| Model.Rubik.Bi | rubik/model.py:142 | Bi is one inverse rotation about (0, 0, -1) |
| Model.Rubik.B2 | rubik/model.py:143-145 | B2 is B then B |
| Model.Rubik.U | rubik/model.py:147 | U is one rotation about (0, 1, 0) |
| Model.Rubik.Ui | rubik/model.py:148 | Ui is one inverse rotation about (0, 1, 0) |
| Model.Rubik.U2 | rubik/model.py:149-151 | U2 is U then U |
| Model.Rubik.D | rubik/model.py:153 | D is one rotation about (0, -1, 0) |
| Model.Rubik.Di | rubik/model.py:154 | Di is one inverse rotation about (0, -1, 0) |
| Model.Rubik.D2 | rubik/model.py:155-157 | D2 is D then D |
| Geometry.Twists | rubik/model.py:123-157 | defines the slice rotations each named move performs: the quarter move one twist without `inverse`, the `i` move one with it, the `2` move the quarter twist twice |
| Geometry.Expand | rubik/controller.py:35-36 | defines the twists of a sequence of moves: each move's twists, in the order of the moves |
| Geometry.Run | rubik/model.py:123-157 | defines the piece map after a sequence of twists, applied first to last |
| Geometry.RunColors | rubik/model.py:123-157 | defines the colours after a sequence of twists, applied first to last |
| Geometry.TwoQuarters | rubik/model.py:125-127 | running the quarter move and then the quarter move again gives the state of the double move, for pieces and colours |
| Geometry.RunBijection | rubik/model.py:123-157 | after any sequence of moves the keys are still [-limit, limit]^3 and the same piece objects are held, each exactly once |
| Geometry.RunShell | rubik/model.py:123-157 | the shell rule holds after any sequence of moves |
| Geometry.RunKeepsCentre | rubik/model.py:123-157 | centres and the core keep their key and their piece through any sequence of moves |
| Geometry.QuarterFourTimes | rubik/model.py:123-157 | any face's quarter move, done four times, restores every piece and every colour |
| Geometry.InverseCancels | rubik/model.py:123-157 | a quarter move and its `i` move cancel, in either order |
| Geometry.DoubleIsTwoQuarters | rubik/model.py:125-127 | a double move is two quarter moves, and two double moves restore the cube |
| Notation.FaceOf | rubik/controller.py:46 | a character names a face exactly when it is that face's letter |
| Notation.Name | rubik/model.py:123-157 | defines the method name of each move: the face letter, then `i` for the inverse and `2` for the double move |
| Notation.Parse | rubik/controller.py:46 | defines which names the cube lookup accepts: a face letter alone, or followed by `i` or `2`; every other string, the empty one included, names no move |
| Notation.ParseName | rubik/controller.py:46 | each of the eighteen method names looks up its own move |
| Notation.NameParse | rubik/controller.py:46 | a string looks up a move only when it is exactly that move's method name |
| Notation.Split | rubik/controller.py:35 | `str.split()` yields only non-empty words without whitespace |
| Notation.SplitSqueeze | rubik/controller.py:35 | the words, concatenated, are the notation with its whitespace removed and nothing else lost |
| Notation.SplitEmpty | rubik/controller.py:35 | a notation splits into no words iff it is empty or all whitespace |
| Notation.SplitJoin | rubik/controller.py:35 | space-free words joined by single spaces split back into the same words |
| Notation.KnownPrefix | rubik/controller.py:35-36 | defines the moves the loop performs: the moves of the leading words up to the first word that names no move |
| Notation.KnownPrefixIs | rubik/controller.py:35-36 | the moves performed before the loop stops are exactly one move per leading word, up to the end or up to the first word that names no move |
| Notation.ScanStopped | rubik/controller.py:35-36 | a scan that stopped at a word naming no move, or at the end, has performed exactly the known prefix; it reached the end iff every word names a move |
| Controller.Controller.constructor | rubik/controller.py:11-14 | a new controller owns a fresh, valid cube of the given size in the solved colouring |
| Controller.Controller.Perform | rubik/controller.py:46 | calling the looked-up method performs that move's twists on the cube |
| Controller.Controller.MakeMoveCallback | rubik/controller.py:42-50 | returns true iff the name is one of the eighteen moves; if so the move is performed, and otherwise the cube, its map and every piece are unchanged |
| Controller.Controller.ApplyNotation | rubik/controller.py:33-36 | the words are performed in order up to the first word that names no move, and earlier moves are kept; the result is true iff every word names a move |
| Controller.BlankNotation | rubik/controller.py:33-36 | an empty or all-whitespace notation performs no move and leaves every piece and colour where it was |
| Controller.ChessNotation | rubik/controller.py:40 | the chess notation names exactly the six double moves R2 L2 B2 F2 U2 D2, in that order |
| Controller.Controller.ChessPattern | rubik/controller.py:38-40 | the chess pattern performs R2 L2 B2 F2 U2 D2 on the cube |

## Left out

- rubik/view.py (the terminal and tkinter views) is not part of this model.
  Neither are the logger (`_assign_logger` and the log calls),
  `exit_callback`, `start`, the interface argument of the controller
  constructor, and the `__main__` block. These are I/O and UI.
- `Piece.__repr__` is only text formatting, so it is not modelled.
- Axes and colours are enumerations, not the string constants of the
  configuration module, which is not part of this model.
- Model.Rubik.At: a missing key raises `KeyError` in the source. The model
  returns `None` instead.
- Model.Rubik.Regroup: the source visits the dictionary in insertion order.
  The model visits keys in an arbitrary order, so its contract holds for
  every order. The new map is built in a local variable and assigned at the
  end, as in the source.
- Model.Rubik.GenerateInitPieces: the source writes into `self._pieces`
  entry by entry. The model fills a local map and assigns it once. The two
  agree because every key of the old map is a cube position, which the loop
  overwrites.
- Even sizes are modelled as written. With `size // 2` the cube then has
  `size + 1` positions per axis, not `size`. The model states the count as
  (2·limit+1)^3 and does not model a genuinely even cube.
- Controller.Controller.MakeMoveCallback: `getattr` also reaches cube
  attributes that are not moves. `_generate_init_pieces` would file a fresh
  solved piece under every position. That replaces every piece object and
  resets the cube to the solved state, and the callback returns true.
  Dunder methods such as `__repr__` also return true. Calling `size` or
  `coord_limit` raises `TypeError`, which the callback does not catch. The
  model treats every name other than the eighteen moves as unknown.
- Controller.Controller.ApplyNotation: an unknown word raises
  `AttributeError` in the source. The model returns false instead. Either
  way the earlier moves stay performed and the later words are not
  performed. Non-move attributes are treated as for `MakeMoveCallback`.
