/**
 * The mesh-text loop of `load_meshes` in old_sketch.js: a subset of
 * Wavefront OBJ. The text is split on "\n" and each line on " "; a `v` line
 * records its three tokens, an `f` line with exactly four parts builds a
 * triangle from the 1-based indices among the vertices seen so far, and every
 * other line is ignored. An index that names no vertex makes `v1[0]` read a
 * property of `undefined`, which throws, so no mesh is produced.
 */
module ObjLoader {
  import opened Results
  import opened Vectors
  import opened Geometry
  import opened Renderer

  /**
   * `String.prototype.split` with a one-character separator: the pieces
   * between separators, so the empty string gives `[""]` and a separator at
   * either end gives an empty piece there.
   */
  function Split(s: string, c: char): (r: seq<string>)
    ensures |r| >= 1
  {
    if s == [] then [""]
    else
      var rest := Split(s[1..], c);
      if s[0] == c then [""] + rest else [[s[0]] + rest[0]] + rest[1..]
  }

  /** The pieces put back together with `c` between each pair. */
  function Join(ps: seq<string>, c: char): string
    requires |ps| >= 1
  {
    if |ps| == 1 then ps[0] else ps[0] + [c] + Join(ps[1..], c)
  }

  /** Splitting loses nothing: joining the pieces gives the text back. */
  lemma {:induction false} SplitJoin(s: string, c: char)
    ensures Join(Split(s, c), c) == s
  {
    if s != [] {
      var rest := Split(s[1..], c);
      SplitJoin(s[1..], c);
      if s[0] != c && |rest| > 1 {
        assert rest == [rest[0]] + rest[1..];
        assert Join(rest, c) == rest[0] + [c] + Join(rest[1..], c);
      }
    }
  }

  /** No piece contains the separator, and there is one piece more than separators. */
  lemma {:induction false} SplitPieces(s: string, c: char)
    ensures forall p :: p in Split(s, c) ==> c !in p
    ensures |Split(s, c)| == multiset(s)[c] + 1
  {
    if s != [] {
      SplitPieces(s[1..], c);
      assert s == [s[0]] + s[1..];
      var rest := Split(s[1..], c);
      if s[0] != c {
        assert rest == [rest[0]] + rest[1..];
        assert c !in rest[0];
        forall p | p in Split(s, c)
          ensures c !in p
        {
          if p != [s[0]] + rest[0] {
            assert p in rest[1..];
          }
        }
      }
    }
  }

  /** A piece without the separator followed by a separator splits off as one piece. */
  lemma {:induction false} SplitAfterPiece(p: string, t: string, c: char)
    requires c !in p
    ensures Split(p + [c] + t, c) == [p] + Split(t, c)
    ensures Split(p, c) == [p]
  {
    if p != [] {
      SplitAfterPiece(p[1..], t, c);
      assert (p + [c] + t)[1..] == p[1..] + [c] + t;
      assert p == [p[0]] + p[1..];
    } else {
      assert p + [c] + t == [c] + t;
    }
  }

  /** Joining pieces that do not contain the separator and splitting again gives them back. */
  lemma {:induction false} JoinSplit(ps: seq<string>, c: char)
    requires |ps| >= 1 && forall p :: p in ps ==> c !in p
    ensures Split(Join(ps, c), c) == ps
  {
    assert ps[0] in ps;
    SplitAfterPiece(ps[0], [], c);
    if |ps| > 1 {
      var tail := ps[1..];
      assert forall p :: p in tail ==> p in ps;
      JoinSplit(tail, c);
      assert Join(ps, c) == ps[0] + [c] + Join(tail, c);
      SplitAfterPiece(ps[0], Join(tail, c), c);
      assert ps == [ps[0]] + tail;
    }
  }

  /** The white space `Number` strips from both ends of a string, restricted to ASCII. */
  predicate IsSpace(ch: char)
  {
    ch == ' ' || ch == '\t' || ch == '\n' || ch == '\r' || ch == 11 as char || ch == 12 as char
  }

  function TrimStart(s: string): (r: string)
    ensures |r| <= |s| && (r != [] ==> !IsSpace(r[0]))
  {
    if s != [] && IsSpace(s[0]) then TrimStart(s[1..]) else s
  }

  function TrimEnd(s: string): (r: string)
    ensures |r| <= |s| && (r != [] ==> !IsSpace(r[|r| - 1]))
  {
    if s != [] && IsSpace(s[|s| - 1]) then TrimEnd(s[..|s| - 1]) else s
  }

  predicate IsDigit(ch: char)
  {
    '0' <= ch <= '9'
  }

  predicate AllDigits(s: string)
  {
    forall i :: 0 <= i < |s| ==> IsDigit(s[i])
  }

  /** The value of a string of decimal digits. */
  function DigitsValue(s: string): nat
    requires AllDigits(s)
  {
    if s == [] then 0 else DigitsValue(s[..|s| - 1]) * 10 + (s[|s| - 1] as int - '0' as int)
  }

  /**
   * The number `Number(token)` gives for an index token, when the token is,
   * apart from surrounding white space, a non-empty string of decimal digits.
   * Every other token gives `None`.
   */
  function ParseIndex(token: string): Option<nat>
  {
    var t := TrimStart(TrimEnd(token));
    if t != [] && AllDigits(t) then Some(DigitsValue(t)) else None
  }

  /** The decimal digits of `n`, most significant first. */
  function Show(n: nat): (r: string)
    ensures r != [] && AllDigits(r)
  {
    var d := ('0' as int + n % 10) as char;
    if n < 10 then [d] else Show(n / 10) + [d]
  }

  lemma {:induction false} ShowValue(n: nat)
    ensures DigitsValue(Show(n)) == n
  {
    var s := Show(n);
    if n >= 10 {
      ShowValue(n / 10);
      assert s[..|s| - 1] == Show(n / 10);
    } else {
      assert s[..0] == [];
    }
  }

  /**
   * Reading back a written index gives it again, also with a carriage return
   * left at the end of the line by a "\r\n" line break.
   */
  lemma ParseShow(n: nat)
    ensures ParseIndex(Show(n)) == Some(n)
    ensures ParseIndex(Show(n) + "\r") == Some(n)
  {
    var s := Show(n);
    ShowValue(n);
    assert TrimEnd(s) == s && TrimStart(s) == s by {
      assert !IsSpace(s[0]) && !IsSpace(s[|s| - 1]);
    }
    var sr := s + "\r";
    assert sr[..|sr| - 1] == s;
    assert TrimEnd(sr) == s;
  }

  /** `vertices.push([parts[1], parts[2], parts[3]])`; a missing part is `undefined`, here `None`. */
  datatype RawVertex = RawVertex(x: Option<string>, y: Option<string>, z: Option<string>)

  /**
   * A component of a `new Vector(...)` made from a token: `x ? x : 0.0`
   * replaces `undefined` and the empty string, the only falsy tokens, by 0;
   * any other token is kept as the string it is.
   */
  datatype Coord = ZeroCoord | Token(text: string)

  datatype Point = Point(x: Coord, y: Coord, z: Coord)

  /** The three `Vector`s of one `new Triangle(...)` built by an `f` line. */
  datatype Face = Face(v1: Point, v2: Point, v3: Point)

  /** The two lists the loop pushes into. */
  datatype State = State(vertices: seq<RawVertex>, faces: seq<Face>)

  /** `v1[0]` (or `v2[0]`, `v3[0]`) read on `undefined` at line `line` (0-based). */
  datatype LoadError = UndefinedVertex(line: nat)

  function Part(parts: seq<string>, i: nat): Option<string>
  {
    if i < |parts| then Some(parts[i]) else None
  }

  /** The vector component the constructor stores for a token. */
  function CoordOf(t: Option<string>): (r: Coord)
    ensures r == ZeroCoord <==> t == None || t == Some("")
    ensures r.Token? ==> t == Some(r.text)
  {
    match t
    case None => ZeroCoord
    case Some(s) => if s == "" then ZeroCoord else Token(s)
  }

  function PointOf(v: RawVertex): Point
  {
    Point(CoordOf(v.x), CoordOf(v.y), CoordOf(v.z))
  }

  function Tokens(line: string): (r: seq<string>)
    ensures |r| >= 1
  {
    Split(line, ' ')
  }

  predicate IsVertexLine(line: string)
  {
    Tokens(line)[0] == "v"
  }

  /** An `f` line the loop acts on: first token `f` and exactly four parts. */
  predicate IsFaceLine(line: string)
  {
    Tokens(line)[0] == "f" && |Tokens(line)| == 4
  }

  function VertexRecord(line: string): RawVertex
  {
    var parts := Tokens(line);
    RawVertex(Part(parts, 1), Part(parts, 2), Part(parts, 3))
  }

  /** `vertices[token - 1]`, or `None` when that is `undefined`. */
  function Lookup(vertices: seq<RawVertex>, token: string): (r: Option<RawVertex>)
    ensures r.Some? <==> ParseIndex(token).Some? && 1 <= ParseIndex(token).value <= |vertices|
  {
    match ParseIndex(token)
    case None => None
    case Some(n) => if 1 <= n <= |vertices| then Some(vertices[n - 1]) else None
  }

  /** All three indices of a face line name vertices among the first `count`. */
  predicate Resolves(line: string, count: nat)
    requires IsFaceLine(line)
  {
    var parts := Tokens(line);
    forall k :: 1 <= k <= 3 ==> ParseIndex(parts[k]).Some? && 1 <= ParseIndex(parts[k]).value <= count
  }

  /** One pass of the loop body; `None` when it throws. */
  function Step(st: State, line: string): (r: Option<State>)
  {
    var parts := Tokens(line);
    if parts[0] == "v" then
      Some(State(st.vertices + [VertexRecord(line)], st.faces))
    else if parts[0] == "f" && |parts| == 4 then
      match (Lookup(st.vertices, parts[1]), Lookup(st.vertices, parts[2]), Lookup(st.vertices, parts[3]))
      case (Some(a), Some(b), Some(c)) =>
        Some(State(st.vertices, st.faces + [Face(PointOf(a), PointOf(b), PointOf(c))]))
      case _ => None
    else
      Some(st)
  }

  /**
   * A line throws exactly when it is a face line with an index that names no
   * vertex seen so far; otherwise a vertex line appends one vertex, a face
   * line appends one face, and any other line changes nothing.
   */
  lemma StepEffect(st: State, line: string)
    ensures Step(st, line).None? <==> IsFaceLine(line) && !Resolves(line, |st.vertices|)
    ensures Step(st, line).Some? ==>
      Step(st, line).value.vertices == st.vertices + (if IsVertexLine(line) then [VertexRecord(line)] else []) &&
      |Step(st, line).value.faces| == |st.faces| + (if IsFaceLine(line) then 1 else 0) &&
      st.faces <= Step(st, line).value.faces
  {
    if IsFaceLine(line) && !Resolves(line, |st.vertices|) {
      var parts := Tokens(line);
      var k :| 1 <= k <= 3 && !(ParseIndex(parts[k]).Some? && 1 <= ParseIndex(parts[k]).value <= |st.vertices|);
      assert Lookup(st.vertices, parts[k]).None?;
    }
  }

  /**
   * Reference: the face of an `f i j k` line over the vertex records
   * `vertices`: the records at 1-based positions i, j and k, in that order.
   */
  function FaceRecord(vertices: seq<RawVertex>, line: string): Face
    requires IsFaceLine(line) && Resolves(line, |vertices|)
  {
    var parts := Tokens(line);
    var i, j, k := ParseIndex(parts[1]).value, ParseIndex(parts[2]).value, ParseIndex(parts[3]).value;
    Face(PointOf(vertices[i - 1]), PointOf(vertices[j - 1]), PointOf(vertices[k - 1]))
  }

  /** The face an `f` line appends is its reference face over the vertices seen so far. */
  lemma FaceLineAppends(st: State, line: string)
    requires IsFaceLine(line) && Resolves(line, |st.vertices|)
    ensures Step(st, line) == Some(State(st.vertices, st.faces + [FaceRecord(st.vertices, line)]))
  {
    var parts := Tokens(line);
    assert ParseIndex(parts[1]).Some? && 1 <= ParseIndex(parts[1]).value <= |st.vertices|;
    assert ParseIndex(parts[2]).Some? && 1 <= ParseIndex(parts[2]).value <= |st.vertices|;
    assert ParseIndex(parts[3]).Some? && 1 <= ParseIndex(parts[3]).value <= |st.vertices|;
  }

  /** The loop over the lines; the first throwing line ends it. */
  function ParseLines(lines: seq<string>): Result<State, LoadError>
  {
    if lines == [] then Ok(State([], []))
    else
      var n := |lines| - 1;
      match ParseLines(lines[..n])
      case Err(e) => Err(e)
      case Ok(st) =>
        match Step(st, lines[n])
        case None => Err(UndefinedVertex(n))
        case Some(st') => Ok(st')
  }

  /** The whole text, split on "\n". */
  function ParseText(text: string): Result<State, LoadError>
  {
    ParseLines(Split(text, '\n'))
  }

  /** Reference: the vertex records of the `v` lines, in file order. */
  function VertexRecords(lines: seq<string>): seq<RawVertex>
  {
    if lines == [] then []
    else
      var n := |lines| - 1;
      VertexRecords(lines[..n]) + (if IsVertexLine(lines[n]) then [VertexRecord(lines[n])] else [])
  }

  /** Reference: the number of face lines. */
  function FaceLineCount(lines: seq<string>): nat
  {
    if lines == [] then 0
    else
      var n := |lines| - 1;
      FaceLineCount(lines[..n]) + (if IsFaceLine(lines[n]) then 1 else 0)
  }

  /**
   * Reference: the faces of the face lines, each over the vertex records
   * declared above it. A face line with an index naming no such vertex
   * contributes nothing; where there is none, every face line contributes one.
   */
  function FaceRecords(lines: seq<string>): seq<Face>
  {
    if lines == [] then []
    else
      var n := |lines| - 1;
      var vertices := VertexRecords(lines[..n]);
      FaceRecords(lines[..n]) +
        (if IsFaceLine(lines[n]) && Resolves(lines[n], |vertices|) then [FaceRecord(vertices, lines[n])] else [])
  }

  /** Line `i` is a face line whose indices do not all name a vertex declared above it. */
  predicate BadFace(lines: seq<string>, i: nat)
    requires i < |lines|
  {
    IsFaceLine(lines[i]) && !Resolves(lines[i], |VertexRecords(lines[..i])|)
  }

  /**
   * The loader succeeds exactly when no face line refers past the vertices
   * declared above it. It then records the `v` lines' tokens in file order
   * and, for each face line, the face of the records it names; when it fails,
   * the error names the first offending line.
   */
  lemma {:induction false} ParseLinesSound(lines: seq<string>)
    ensures ParseLines(lines).Ok? <==> forall i :: 0 <= i < |lines| ==> !BadFace(lines, i)
    ensures ParseLines(lines).Ok? ==>
      ParseLines(lines).value.vertices == VertexRecords(lines) &&
      ParseLines(lines).value.faces == FaceRecords(lines) &&
      |ParseLines(lines).value.faces| == FaceLineCount(lines)
    ensures ParseLines(lines).Err? ==>
      var e := ParseLines(lines).error.line;
      e < |lines| && BadFace(lines, e) && forall i :: 0 <= i < e ==> !BadFace(lines, i)
  {
    if lines != [] {
      var n := |lines| - 1;
      var init := lines[..n];
      ParseLinesSound(init);
      BadFacePrefix(lines);
      if ParseLines(init).Ok? {
        ParseLastLine(lines);
        assert forall i :: 0 <= i < n ==> !BadFace(lines, i);
      } else {
        assert BadFace(lines, ParseLines(init).error.line);
      }
    }
    if ParseLines(lines).Ok? {
      FaceRecordsCount(lines);
    }
  }

  /** Without a bad face line, every face line contributes exactly one face. */
  lemma {:induction false} FaceRecordsCount(lines: seq<string>)
    requires forall i :: 0 <= i < |lines| ==> !BadFace(lines, i)
    ensures |FaceRecords(lines)| == FaceLineCount(lines)
  {
    if lines != [] {
      var n := |lines| - 1;
      BadFacePrefix(lines);
      assert forall i :: 0 <= i < n ==> !BadFace(lines[..n], i) by {
        forall i | 0 <= i < n ensures !BadFace(lines[..n], i) {
          assert !BadFace(lines, i);
        }
      }
      FaceRecordsCount(lines[..n]);
      assert !BadFace(lines, n);
    }
  }

  /** Dropping the last line does not change which earlier lines are bad. */
  lemma BadFacePrefix(lines: seq<string>)
    requires lines != []
    ensures forall i :: 0 <= i < |lines| - 1 ==> (BadFace(lines, i) <==> BadFace(lines[..|lines| - 1], i))
  {
    var init := lines[..|lines| - 1];
    forall i | 0 <= i < |init|
      ensures lines[i] == init[i] && lines[..i] == init[..i]
    {
    }
  }

  /** The last pass of the loop, after the earlier lines parsed to their references. */
  lemma ParseLastLine(lines: seq<string>)
    requires lines != []
    requires var init := lines[..|lines| - 1];
      ParseLines(init).Ok? &&
      ParseLines(init).value.vertices == VertexRecords(init) &&
      ParseLines(init).value.faces == FaceRecords(init)
    ensures ParseLines(lines).Ok? <==> !BadFace(lines, |lines| - 1)
    ensures ParseLines(lines).Ok? ==>
      ParseLines(lines).value.vertices == VertexRecords(lines) &&
      ParseLines(lines).value.faces == FaceRecords(lines)
    ensures ParseLines(lines).Err? ==> ParseLines(lines).error.line == |lines| - 1
  {
    var n := |lines| - 1;
    var st := ParseLines(lines[..n]).value;
    StepEffect(st, lines[n]);
    if IsFaceLine(lines[n]) && Resolves(lines[n], |st.vertices|) {
      FaceLineAppends(st, lines[n]);
    }
  }

  /** Once a prefix of the lines throws, the loop's result is that error. */
  lemma {:induction false} ParseLinesErrPrefix(lines: seq<string>, m: nat)
    requires m <= |lines| && ParseLines(lines[..m]).Err?
    ensures ParseLines(lines) == ParseLines(lines[..m])
  {
    if m < |lines| {
      var n := |lines| - 1;
      assert lines[..n][..m] == lines[..m];
      ParseLinesErrPrefix(lines[..n], m);
    } else {
      assert lines[..m] == lines;
    }
  }

  /** The loop of `load_meshes` over the split text. */
  method LoadObj(text: string) returns (r: Result<State, LoadError>)
    ensures r == ParseText(text)
  {
    var lines := Split(text, '\n');
    var vertices: seq<RawVertex> := [];
    var faces: seq<Face> := [];
    var i := 0;
    while i < |lines|
      invariant 0 <= i <= |lines|
      invariant ParseLines(lines[..i]) == Ok(State(vertices, faces))
    {
      var line := lines[i];
      var parts := Split(line, ' ');
      assert lines[..i + 1][..i] == lines[..i];
      if parts[0] == "v" {
        vertices := vertices + [RawVertex(Part(parts, 1), Part(parts, 2), Part(parts, 3))];
      } else if parts[0] == "f" && |parts| == 4 {
        var v1 := Lookup(vertices, parts[1]);
        var v2 := Lookup(vertices, parts[2]);
        var v3 := Lookup(vertices, parts[3]);
        if v1.None? || v2.None? || v3.None? {
          r := Err(UndefinedVertex(i));
          ParseLinesErrPrefix(lines, i + 1);
          return;
        }
        faces := faces + [Face(PointOf(v1.value), PointOf(v2.value), PointOf(v3.value))];
      }
      i := i + 1;
    }
    assert lines[..|lines|] == lines;
    r := Ok(State(vertices, faces));
  }

  /**
   * The number a stored component stands for once arithmetic coerces it:
   * 0 for a replaced token, otherwise the caller's `num` of the string.
   */
  function ValueOf(c: Coord, num: string -> real): real
  {
    match c
    case ZeroCoord => 0.0
    case Token(t) => num(t)
  }

  function VectorOf(p: Point, num: string -> real): Vec3
  {
    Vec3(ValueOf(p.x, num), ValueOf(p.y, num), ValueOf(p.z, num))
  }

  /**
   * The corner vectors of the loaded triangles: every `f` line creates three
   * new `Vector`s, so face `i` owns pool entries `3i`, `3i + 1` and `3i + 2`.
   */
  function LoadedPool(faces: seq<Face>, num: string -> real): (r: seq<Vec3>)
    ensures |r| == 3 * |faces|
  {
    if faces == [] then []
    else
      var f := faces[|faces| - 1];
      LoadedPool(faces[..|faces| - 1], num) + [VectorOf(f.v1, num), VectorOf(f.v2, num), VectorOf(f.v3, num)]
  }

  lemma {:induction false} LoadedPoolAt(faces: seq<Face>, num: string -> real, i: nat)
    requires i < |faces|
    ensures LoadedPool(faces, num)[3 * i] == VectorOf(faces[i].v1, num)
    ensures LoadedPool(faces, num)[3 * i + 1] == VectorOf(faces[i].v2, num)
    ensures LoadedPool(faces, num)[3 * i + 2] == VectorOf(faces[i].v3, num)
  {
    var init := faces[..|faces| - 1];
    if i < |init| {
      LoadedPoolAt(init, num, i);
      assert init[i] == faces[i];
    }
  }

  /** The triangles `new Mesh(...triangles)` receives, over `LoadedPool`. */
  function LoadedTriangles(faces: seq<Face>, num: string -> real, sqrt: real -> real): (r: seq<Triangle>)
    ensures |r| == |faces| && AllInPool(r, 3 * |faces|)
  {
    var pool := LoadedPool(faces, num);
    seq(|faces|, i requires 0 <= i < |faces| => NewTriangle(pool, 3 * i, 3 * i + 1, 3 * i + 2, sqrt))
  }

  /**
   * Loaded triangles share no `Vector`: slot `j` of the mesh is pool entry
   * `j`, so every pool vector is referenced exactly once.
   */
  lemma LoadedUnshared(faces: seq<Face>, num: string -> real, sqrt: real -> real)
    ensures var slots := Slots(LoadedTriangles(faces, num, sqrt));
      |slots| == 3 * |faces| && forall j :: 0 <= j < |slots| ==> slots[j] == j
  {
    var ts := LoadedTriangles(faces, num, sqrt);
    var slots := Slots(ts);
    forall j | 0 <= j < |slots|
      ensures slots[j] == j
    {
      var i, k := j / 3, j % 3;
      assert j == 3 * i + k;
      SlotAt(ts, i, k);
      LoadedCorners(faces, num, sqrt, i);
    }
  }

  lemma LoadedCorners(faces: seq<Face>, num: string -> real, sqrt: real -> real, i: nat)
    requires i < |faces|
    ensures Corners(LoadedTriangles(faces, num, sqrt)[i]) == [3 * i, 3 * i + 1, 3 * i + 2]
  {
  }

  /**
   * The fulfilled `load_meshes` chain up to `new Mesh(...triangles)`: the
   * mesh of the parsed faces, or the error that rejects the promise.
   */
  method LoadMesh(text: string, num: string -> real, sqrt: real -> real) returns (r: Result<Mesh, LoadError>)
    ensures ParseText(text).Err? ==> r == Err(ParseText(text).error)
    ensures ParseText(text).Ok? ==> r.Ok?
    ensures r.Ok? ==>
      var faces := ParseText(text).value.faces;
      fresh(r.value) && fresh(r.value.vertices) && fresh(r.value.triangles) && r.value.Valid() &&
      r.value.vertices[..] == LoadedPool(faces, num) &&
      r.value.triangles[..] == LoadedTriangles(faces, num, sqrt) &&
      r.value.position == Zero && r.value.rotation == Zero
  {
    var parsed := LoadObj(text);
    match parsed
    case Err(e) =>
      r := Err(e);
    case Ok(st) =>
      var m := new Mesh(LoadedPool(st.faces, num), LoadedTriangles(st.faces, num, sqrt));
      r := Ok(m);
  }
}
