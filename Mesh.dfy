/** Reading Wavefront-style mesh files (Obj::readfile) over an already tokenised
    input: whitespace-separated tokens, each either a word or a number. */
module Mesh {
  import opened Geometry

  /** One whitespace-separated token of the file. A token that reads as a number
      is a Number; every other token is a Word. */
  datatype Token = Word(text: string) | Number(value: real)

  /** The source's vertex record (three doubles). */
  datatype Vertex = Vertex(x: real, y: real, z: real)

  /** The source's face record: three unsigned, 1-based vertex numbers. */
  datatype Face = Face(v1: nat, v2: nat, v3: nat)

  /** What a file contributes: its vertices and faces in input order. */
  datatype Parsed = Parsed(vertexes: seq<Vertex>, faces: seq<Face>)

  /** One more than the largest unsigned int. */
  const UintLimit: nat := 0x1_0000_0000

  /** The first character of a token read as a string, if any. */
  function Keyword(t: Token): Option<char> {
    if t.Word? && |t.text| > 0 then Some(t.text[0]) else None
  }

  /** Whether a token reads as the field: a double for vertices, an unsigned
      integer for faces. */
  predicate Reads(t: Token, wantIndex: bool) {
    t.Number? && (wantIndex ==> t.value.Floor as real == t.value && 0.0 <= t.value && t.value < UintLimit as real)
  }

  /** The number of successful field reads among the next k tokens: reading stops at
      the first token that does not read (the stream then fails) or at the end. */
  function LeadingReads(toks: seq<Token>, wantIndex: bool, k: nat): (n: nat)
    ensures n <= k && n <= |toks|
    ensures forall i :: 0 <= i < n ==> Reads(toks[i], wantIndex)
    ensures n < k && n < |toks| ==> !Reads(toks[n], wantIndex)
  {
    if k == 0 || toks == [] || !Reads(toks[0], wantIndex) then 0
    else 1 + LeadingReads(toks[1..], wantIndex, k - 1)
  }

  /** LeadingReads for the three fields of a record, written out. */
  lemma ReadsThree(toks: seq<Token>, wantIndex: bool)
    ensures LeadingReads(toks, wantIndex, 3) ==
            if |toks| == 0 || !Reads(toks[0], wantIndex) then 0
            else if |toks| == 1 || !Reads(toks[1], wantIndex) then 1
            else if |toks| == 2 || !Reads(toks[2], wantIndex) then 2
            else 3
  {
    if |toks| > 0 && Reads(toks[0], wantIndex) {
      var t1 := toks[1..];
      if |t1| > 0 && Reads(t1[0], wantIndex) {
        var t2 := t1[1..];
        assert t2 == toks[2..];
        if |t2| > 0 && Reads(t2[0], wantIndex) {
          assert LeadingReads(t2[1..], wantIndex, 0) == 0;
        }
      }
    }
  }

  /** Field i of a record: the token's value when it was read, 0 otherwise. */
  function RealField(toks: seq<Token>, n: nat, i: nat): real
    requires n <= |toks|
  {
    if i < n && toks[i].Number? then toks[i].value else 0.0
  }

  function IndexField(toks: seq<Token>, n: nat, i: nat): nat
    requires n <= |toks|
  {
    if i < n && toks[i].Number? && toks[i].value >= 0.0 then toks[i].value.Floor else 0
  }

  function VertexFrom(toks: seq<Token>, n: nat): Vertex
    requires n <= |toks|
  {
    Vertex(RealField(toks, n, 0), RealField(toks, n, 1), RealField(toks, n, 2))
  }

  function FaceFrom(toks: seq<Token>, n: nat): Face
    requires n <= |toks|
  {
    Face(IndexField(toks, n, 0), IndexField(toks, n, 1), IndexField(toks, n, 2))
  }

  function AddVertex(v: Vertex, p: Parsed): Parsed { Parsed([v] + p.vertexes, p.faces) }
  function AddFace(f: Face, p: Parsed): Parsed { Parsed(p.vertexes, [f] + p.faces) }

  /** The contents the read loop appends for a token sequence. A 'v' token reads
      three numbers, an 'f' token three indices; the record is appended even when a
      read fails, and a failed read ends the loop. Other tokens are skipped. */
  function Parse(toks: seq<Token>): Parsed
    decreases |toks|
  {
    if toks == [] then Parsed([], [])
    else
      var rest := toks[1..];
      match Keyword(toks[0])
      case Some('v') =>
        var n := LeadingReads(rest, false, 3);
        var v := VertexFrom(rest, n);
        if n == 3 then AddVertex(v, Parse(rest[3..])) else Parsed([v], [])
      case Some('f') =>
        var n := LeadingReads(rest, true, 3);
        var f := FaceFrom(rest, n);
        if n == 3 then AddFace(f, Parse(rest[3..])) else Parsed([], [f])
      case _ => Parse(rest)
  }

  /** The file's contents, or nothing when the file cannot be opened. */
  function Load(file: Option<seq<Token>>): Parsed {
    if file.None? then Parsed([], []) else Parse(file.value)
  }

  /** Every face names vertices by 1-based number inside the vertex list: the
      condition under which the lookup vertexes[f.vk - 1] is in bounds. */
  predicate FacesInRange(mesh: Parsed) {
    forall i :: 0 <= i < |mesh.faces| ==>
      && 1 <= mesh.faces[i].v1 <= |mesh.vertexes|
      && 1 <= mesh.faces[i].v2 <= |mesh.vertexes|
      && 1 <= mesh.faces[i].v3 <= |mesh.vertexes|
  }

  /** The three doubles after a 'v' token, starting at toks[i]: the record read
      (0 in a field whose read failed), where reading continues, and whether all
      three reads succeeded. */
  method ReadVertex(toks: seq<Token>, i: nat) returns (v: Vertex, next: nat, ok: bool)
    requires i <= |toks|
    ensures var n := LeadingReads(toks[i..], false, 3);
            v == VertexFrom(toks[i..], n) && ok == (n == 3) && next == i + n
  {
    ReadsThree(toks[i..], false);
    var x, y, z := 0.0, 0.0, 0.0;
    next, ok := i, true;
    if next < |toks| && Reads(toks[next], false) { x := toks[next].value; next := next + 1; } else { ok := false; }
    if ok && next < |toks| && Reads(toks[next], false) { y := toks[next].value; next := next + 1; } else { ok := false; }
    if ok && next < |toks| && Reads(toks[next], false) { z := toks[next].value; next := next + 1; } else { ok := false; }
    v := Vertex(x, y, z);
  }

  /** The three unsigned indices after an 'f' token, as ReadVertex. */
  method ReadFace(toks: seq<Token>, i: nat) returns (f: Face, next: nat, ok: bool)
    requires i <= |toks|
    ensures var n := LeadingReads(toks[i..], true, 3);
            f == FaceFrom(toks[i..], n) && ok == (n == 3) && next == i + n
  {
    ReadsThree(toks[i..], true);
    var v1, v2, v3 := 0, 0, 0;
    next, ok := i, true;
    if next < |toks| && Reads(toks[next], true) { v1 := toks[next].value.Floor; next := next + 1; } else { ok := false; }
    if ok && next < |toks| && Reads(toks[next], true) { v2 := toks[next].value.Floor; next := next + 1; } else { ok := false; }
    if ok && next < |toks| && Reads(toks[next], true) { v3 := toks[next].value.Floor; next := next + 1; } else { ok := false; }
    f := Face(v1, v2, v3);
  }

  /** A mesh object: the vertex and face lists that readfile appends to. */
  class Obj {
    var vertexes: seq<Vertex>
    var faces: seq<Face>

    constructor ()
      ensures vertexes == [] && faces == []
    {
      vertexes := [];
      faces := [];
    }

    /** Appends the contents of a file (None: the file cannot be opened, and
        nothing changes). */
    method ReadFile(file: Option<seq<Token>>)
      modifies this
      ensures vertexes == old(vertexes) + Load(file).vertexes
      ensures faces == old(faces) + Load(file).faces
    {
      if file.None? {
        return;
      }
      var toks := file.value;
      var i := 0;
      while i < |toks|
        invariant 0 <= i <= |toks|
        invariant old(vertexes) + Parse(toks).vertexes == vertexes + Parse(toks[i..]).vertexes
        invariant old(faces) + Parse(toks).faces == faces + Parse(toks[i..]).faces
        decreases |toks| - i
      {
        var s := toks[i];
        assert toks[i..][1..] == toks[i + 1..];
        i := i + 1;
        match Keyword(s)
        case Some('v') =>
          var v, next, ok := ReadVertex(toks, i);
          vertexes := vertexes + [v];
          if !ok {
            break;
          }
          assert toks[i..][3..] == toks[next..];
          i := next;
        case Some('f') =>
          var f, next, ok := ReadFace(toks, i);
          faces := faces + [f];
          if !ok {
            break;
          }
          assert toks[i..][3..] == toks[next..];
          i := next;
        case _ =>
      }
    }
  }

  /** Reading stops at the first token that does not read: tokens after it have no
      influence on how many fields are read. */
  lemma {:induction false} LeadingReadsStable(toks: seq<Token>, more: seq<Token>, wantIndex: bool, k: nat)
    requires LeadingReads(toks, wantIndex, k) < |toks|
    ensures LeadingReads(toks + more, wantIndex, k) == LeadingReads(toks, wantIndex, k)
    decreases k
  {
    if k != 0 && Reads(toks[0], wantIndex) {
      assert (toks + more)[1..] == toks[1..] + more;
      LeadingReadsStable(toks[1..], more, wantIndex, k - 1);
    }
  }

  /** A record whose read fails on a token of the input ends the parse: whatever
      follows is never read. */
  lemma FailedReadEndsParse(toks: seq<Token>, more: seq<Token>)
    requires |toks| > 0 && Keyword(toks[0]) in {Some('v'), Some('f')}
    requires LeadingReads(toks[1..], Keyword(toks[0]) == Some('f'), 3) < 3
    requires LeadingReads(toks[1..], Keyword(toks[0]) == Some('f'), 3) < |toks| - 1
    ensures Parse(toks + more) == Parse(toks)
  {
    var w := Keyword(toks[0]) == Some('f');
    assert (toks + more)[0] == toks[0];
    assert (toks + more)[1..] == toks[1..] + more;
    LeadingReadsStable(toks[1..], more, w, 3);
  }

  /** A line of a mesh file as written: a vertex, a face, or any other token (a
      comment word, a group name) that the reader skips. */
  datatype Line = VertexLine(v: Vertex) | FaceLine(f: Face) | Other(t: Token)

  /** The lines a writer can produce so that they read back: face numbers that fit an
      unsigned int, and skipped tokens that do not begin with 'v' or 'f'. */
  predicate Writable(l: Line) {
    match l
    case VertexLine(_) => true
    case FaceLine(f) => f.v1 < UintLimit && f.v2 < UintLimit && f.v3 < UintLimit
    case Other(t) => Keyword(t) != Some('v') && Keyword(t) != Some('f')
  }

  function EncodeLine(l: Line): seq<Token> {
    match l
    case VertexLine(v) => [Word("v"), Number(v.x), Number(v.y), Number(v.z)]
    case FaceLine(f) => [Word("f"), Number(f.v1 as real), Number(f.v2 as real), Number(f.v3 as real)]
    case Other(t) => [t]
  }

  function Encode(lines: seq<Line>): seq<Token> {
    if lines == [] then [] else EncodeLine(lines[0]) + Encode(lines[1..])
  }

  function LineVertexes(l: Line): seq<Vertex> { if l.VertexLine? then [l.v] else [] }
  function LineFaces(l: Line): seq<Face> { if l.FaceLine? then [l.f] else [] }

  function VertexesOf(lines: seq<Line>): seq<Vertex> {
    if lines == [] then [] else LineVertexes(lines[0]) + VertexesOf(lines[1..])
  }

  function FacesOf(lines: seq<Line>): seq<Face> {
    if lines == [] then [] else LineFaces(lines[0]) + FacesOf(lines[1..])
  }

  /** Reading one written line in front of any input. */
  lemma ParseLine(l: Line, tail: seq<Token>)
    requires Writable(l)
    ensures Parse(EncodeLine(l) + tail) ==
            Parsed(LineVertexes(l) + Parse(tail).vertexes, LineFaces(l) + Parse(tail).faces)
  {
    var all := EncodeLine(l) + tail;
    match l
    case VertexLine(v) =>
      assert all[1..][..3] == [Number(v.x), Number(v.y), Number(v.z)];
      ReadsThree(all[1..], false);
      assert all[1..][3..] == tail;
    case FaceLine(f) =>
      assert all[1..][..3] == [Number(f.v1 as real), Number(f.v2 as real), Number(f.v3 as real)];
      ReadsThree(all[1..], true);
      assert all[1..][3..] == tail;
    case Other(t) =>
      assert all[1..] == tail;
  }

  lemma CombineParsed(va: seq<Vertex>, vb: seq<Vertex>, fa: seq<Face>, fb: seq<Face>, r: Parsed)
    ensures Parsed(va + (vb + r.vertexes), fa + (fb + r.faces)) == Parsed((va + vb) + r.vertexes, (fa + fb) + r.faces)
  {
    assert va + (vb + r.vertexes) == (va + vb) + r.vertexes;
    assert fa + (fb + r.faces) == (fa + fb) + r.faces;
  }

  /** Reading the first written line in front of the rest of the input. */
  lemma ParseFirstLine(lines: seq<Line>, rest: seq<Token>)
    requires lines != [] && Writable(lines[0])
    ensures var p := Parse(Encode(lines[1..]) + rest);
            Parse(Encode(lines) + rest) == Parsed(LineVertexes(lines[0]) + p.vertexes, LineFaces(lines[0]) + p.faces)
  {
    assert Encode(lines) + rest == EncodeLine(lines[0]) + (Encode(lines[1..]) + rest);
    ParseLine(lines[0], Encode(lines[1..]) + rest);
  }

  /** Reading written lines followed by any input yields every vertex and face of the
      lines, in order and exactly once, followed by what that input yields. */
  lemma {:induction false} ParseEncode(lines: seq<Line>, rest: seq<Token>)
    requires forall i :: 0 <= i < |lines| ==> Writable(lines[i])
    ensures Parse(Encode(lines) + rest) ==
            Parsed(VertexesOf(lines) + Parse(rest).vertexes, FacesOf(lines) + Parse(rest).faces)
    decreases |lines|
  {
    var r := Parse(rest);
    if lines == [] {
      assert Encode(lines) + rest == rest;
      assert r.vertexes == VertexesOf(lines) + r.vertexes;
      assert r.faces == FacesOf(lines) + r.faces;
    } else {
      ParseEncode(lines[1..], rest);
      ParseFirstLine(lines, rest);
      CombineParsed(LineVertexes(lines[0]), VertexesOf(lines[1..]), LineFaces(lines[0]), FacesOf(lines[1..]), r);
    }
  }

  /** The round trip: reading written lines gives back exactly their vertices and faces. */
  lemma RoundTrip(lines: seq<Line>)
    requires forall i :: 0 <= i < |lines| ==> Writable(lines[i])
    ensures Parse(Encode(lines)) == Parsed(VertexesOf(lines), FacesOf(lines))
  {
    ParseEncode(lines, []);
    assert Encode(lines) + [] == Encode(lines);
  }
}
