/** Move names as the controller receives them: the eighteen method names of
    the cube, and the whitespace splitting that turns a notation string into
    a list of such names. */
module Notation {
  import opened Geometry

  /** The letter of a face in a move name. */
  function Letter(f: Face): char {
    match f
    case R => 'R'
    case L => 'L'
    case U => 'U'
    case D => 'D'
    case F => 'F'
    case B => 'B'
  }

  /** The face a letter names, if any. */
  function FaceOf(c: char): (r: Option<Face>)
    ensures r.Some? ==> Letter(r.value) == c
    ensures forall f :: Letter(f) == c ==> r == Some(f)
  {
    match c
    case 'R' => Some(R)
    case 'L' => Some(L)
    case 'U' => Some(U)
    case 'D' => Some(D)
    case 'F' => Some(F)
    case 'B' => Some(B)
    case _ => None
  }

  /** The name of the cube method that performs a move: the face letter,
      followed by "i" for the inverse turn or "2" for the double turn. */
  function Name(mv: Move): string {
    match mv.kind
    case Quarter => [Letter(mv.face)]
    case Inverse => [Letter(mv.face), 'i']
    case Double => [Letter(mv.face), '2']
  }

  /** The move a name looks up on the cube; None for every other string. */
  function Parse(name: string): Option<Move> {
    if |name| == 0 || |name| > 2 then None
    else match FaceOf(name[0])
      case None => None
      case Some(f) =>
        if |name| == 1 then Some(Move(f, Quarter))
        else if name[1] == 'i' then Some(Move(f, Inverse))
        else if name[1] == '2' then Some(Move(f, Double))
        else None
  }

  /** Each of the eighteen names looks up its own move ... */
  lemma ParseName(mv: Move)
    ensures Parse(Name(mv)) == Some(mv)
  {
  }

  /** ... and a string looks up a move only when it is that move's name. */
  lemma NameParse(name: string)
    ensures Parse(name).Some? ==> Name(Parse(name).value) == name
  {
    if Parse(name).Some? {
      var mv := Parse(name).value;
      assert Letter(mv.face) == name[0];
      if |name| == 1 {
        assert Name(mv) == [name[0]];
      } else {
        assert Name(mv) == [name[0], name[1]];
      }
    }
  }

  /** The characters Python's str.isspace accepts, which str.split() with no
      argument splits on. */
  predicate IsSpace(c: char) {
    c == ' ' || ('\t' <= c <= '\r') || ('\U{1C}' <= c <= '\U{1F}') ||
    c == '\U{85}' || c == '\U{A0}' || c == '\U{1680}' || ('\U{2000}' <= c <= '\U{200A}') ||
    c == '\U{2028}' || c == '\U{2029}' || c == '\U{202F}' || c == '\U{205F}' || c == '\U{3000}'
  }

  predicate NoSpace(s: string) {
    forall i :: 0 <= i < |s| ==> !IsSpace(s[i])
  }

  predicate AllSpace(s: string) {
    forall i :: 0 <= i < |s| ==> IsSpace(s[i])
  }

  /** The length of the run of non-space characters s starts with. */
  function WordLength(s: string): (n: nat)
    ensures n <= |s|
    ensures NoSpace(s[..n])
    ensures n < |s| ==> IsSpace(s[n])
  {
    if s == [] || IsSpace(s[0]) then 0
    else
      var n := 1 + WordLength(s[1..]);
      assert s[..n] == [s[0]] + s[1..][..n - 1];
      n
  }

  /** str.split() with no argument: the maximal runs of non-space
      characters, in order; runs of spaces, leading and trailing ones
      included, separate words and produce none. */
  function Split(s: string): (words: seq<string>)
    ensures forall w :: w in words ==> w != [] && NoSpace(w)
    decreases |s|
  {
    if s == [] then []
    else if IsSpace(s[0]) then Split(s[1..])
    else
      var n := WordLength(s);
      [s[..n]] + Split(s[n..])
  }

  /** The words joined with a single space between each two. */
  function Join(words: seq<string>): string {
    if words == [] then ""
    else if |words| == 1 then words[0]
    else words[0] + " " + Join(words[1..])
  }

  /** The characters of s that are not spaces, in order. */
  function Squeeze(s: string): string {
    if s == [] then ""
    else if IsSpace(s[0]) then Squeeze(s[1..])
    else [s[0]] + Squeeze(s[1..])
  }

  /** The words concatenated. */
  function Concat(words: seq<string>): string {
    if words == [] then "" else words[0] + Concat(words[1..])
  }

  /** Splitting loses the spaces and nothing else. */
  lemma {:induction false} SplitSqueeze(s: string)
    ensures Concat(Split(s)) == Squeeze(s)
    decreases |s|
  {
    if s == [] {
    } else if IsSpace(s[0]) {
      SplitSqueeze(s[1..]);
    } else {
      var n := WordLength(s);
      SplitSqueeze(s[n..]);
      SqueezeWord(s, n);
      assert Split(s)[1..] == Split(s[n..]);
    }
  }

  /** Squeezing a string that starts with a word of length n keeps that word
      whole. */
  lemma {:induction false} SqueezeWord(s: string, n: nat)
    requires n <= |s| && NoSpace(s[..n])
    ensures Squeeze(s) == s[..n] + Squeeze(s[n..])
    decreases n
  {
    if n > 0 {
      assert s[1..][..n - 1] == s[1..n];
      assert s[1..][n - 1..] == s[n..];
      SqueezeWord(s[1..], n - 1);
      assert s[..n] == [s[0]] + s[1..n];
    }
  }

  /** A string of spaces alone, the empty one included, splits into no
      words, and only such a string does. */
  lemma {:induction false} SplitEmpty(s: string)
    ensures Split(s) == [] <==> AllSpace(s)
    decreases |s|
  {
    if s != [] {
      SplitEmpty(s[1..]);
      if IsSpace(s[0]) {
        assert AllSpace(s) <==> AllSpace(s[1..]);
      }
    }
  }

  /** Space-free words joined with single spaces split back into the same
      words. */
  lemma {:induction false} SplitJoin(words: seq<string>)
    requires forall w :: w in words ==> w != [] && NoSpace(w)
    ensures Split(Join(words)) == words
  {
    if words != [] {
      var w, tail := words[0], words[1..];
      assert w in words;
      if tail == [] {
        WordOf(w, "");
        assert w + "" == Join(words);
      } else {
        var rest := " " + Join(tail);
        assert w + rest == Join(words);
        WordOf(w, rest);
        assert rest[1..] == Join(tail);
        assert Split(rest) == Split(Join(tail));
        assert forall x :: x in tail ==> x in words;
        SplitJoin(tail);
      }
    }
  }

  /** A non-empty space-free word followed by nothing or by a space is read
      whole as the first word. */
  lemma WordOf(w: string, rest: string)
    requires w != [] && NoSpace(w)
    requires rest == [] || IsSpace(rest[0])
    ensures WordLength(w + rest) == |w|
    ensures Split(w + rest) == [w] + Split(rest)
  {
    var s := w + rest;
    WordPrefix(s, |w|);
    assert s[..|w|] == w;
    assert s[|w|..] == rest;
  }

  /** The word s starts with is exactly its first n characters when those
      are space-free and the next one, if any, is a space. */
  lemma {:induction false} WordPrefix(s: string, n: nat)
    requires n <= |s| && NoSpace(s[..n]) && (n == |s| || IsSpace(s[n]))
    ensures WordLength(s) == n
    decreases n
  {
    if n > 0 {
      assert s[0] == s[..n][0];
      assert s[1..][..n - 1] == s[1..n];
      WordPrefix(s[1..], n - 1);
    }
  }

  /** The moves of the leading names that look up a move, up to the first
      that does not. */
  function KnownPrefix(names: seq<string>): seq<Move> {
    if names == [] then []
    else match Parse(names[0])
      case None => []
      case Some(mv) => [mv] + KnownPrefix(names[1..])
  }

  /** KnownPrefix(names) is the one sequence of moves that the leading names
      look up, one each, and that stops at the end of the names or at a name
      that looks up nothing. */
  lemma {:induction false} KnownPrefixIs(names: seq<string>, moves: seq<Move>)
    ensures KnownPrefix(names) == moves <==>
      |moves| <= |names| &&
      (forall j :: 0 <= j < |moves| ==> Parse(names[j]) == Some(moves[j])) &&
      (|moves| < |names| ==> Parse(names[|moves|]).None?)
  {
    if names != [] {
      if Parse(names[0]).Some? && moves != [] {
        KnownPrefixIs(names[1..], moves[1..]);
        if KnownPrefix(names) == moves {
          assert KnownPrefix(names[1..]) == moves[1..];
          forall j | 0 <= j < |moves|
            ensures Parse(names[j]) == Some(moves[j])
          {
            if j > 0 {
              assert names[j] == names[1..][j - 1];
            }
          }
        } else if |moves| <= |names| && (forall j :: 0 <= j < |moves| ==> Parse(names[j]) == Some(moves[j])) {
          forall j | 0 <= j < |moves| - 1
            ensures Parse(names[1..][j]) == Some(moves[1..][j])
          {
            assert names[1..][j] == names[j + 1];
          }
        }
      }
    }
  }

  /** Where a scan of the names stopped after looking up `moves`: those are
      KnownPrefix(names), and the scan reached the end exactly when every
      name looks up a move. */
  lemma ScanStopped(names: seq<string>, moves: seq<Move>)
    requires |moves| <= |names|
    requires forall j :: 0 <= j < |moves| ==> Parse(names[j]) == Some(moves[j])
    requires |moves| < |names| ==> Parse(names[|moves|]).None?
    ensures KnownPrefix(names) == moves
    ensures |moves| == |names| <==> forall w :: w in names ==> Parse(w).Some?
  {
    KnownPrefixIs(names, moves);
    if |moves| < |names| {
      assert names[|moves|] in names;
    } else {
      forall w | w in names
        ensures Parse(w).Some?
      {
        var j :| 0 <= j < |names| && names[j] == w;
      }
    }
  }
}
