/** The viewer's Wavefront OBJ reader (`parseOBJ`): keeps `v x y z` and
    `f a b c [d]` lines, turns 1-based face references into 0-based vertex
    indices, splits quads along the (a, c) diagonal and expands the face
    indices into a flat, non-indexed position buffer. */
module ObjParser {
  import opened JsStrings
  import opened JsNumbers

  /** What one line of the file amounts to. */
  datatype Record =
    | Skipped
    | VertexRecord(x: string, y: string, z: string)
    | FaceRecord(indices: seq<Option<int>>)

  /** `parts[i]`, with a missing field read as the empty string (both make
      parseFloat return NaN). */
  function Field(parts: seq<string>, i: nat): string {
    if i < |parts| then parts[i] else ""
  }

  function ReadRecord(raw: string): Record {
    var line := Trim(raw);
    if line == [] || StartsWith(line, "#") then Skipped
    else if StartsWith(line, "v ") then
      var parts := SplitWs(line);
      VertexRecord(Field(parts, 1), Field(parts, 2), Field(parts, 3))
    else if StartsWith(line, "f ") then FaceRecord(RefIndices(SplitWs(line)[1..]))
    else Skipped
  }

  /** A face reference: parseInt of the text before the first `/`, made
      0-based; None stands for NaN. */
  function RefIndex(part: string): Option<int> {
    match ParseInt(SplitOn(part, '/')[0])
    case None => None
    case Some(k) => Some(k - 1)
  }

  /** `xs.map(f)`. */
  function Map<A, B>(f: A -> B, xs: seq<A>): (ys: seq<B>)
    ensures |ys| == |xs|
    ensures forall i :: 0 <= i < |xs| ==> ys[i] == f(xs[i])
  {
    seq(|xs|, i requires 0 <= i < |xs| => f(xs[i]))
  }

  lemma MapAppend<A, B>(f: A -> B, a: seq<A>, b: seq<A>)
    ensures Map(f, a + b) == Map(f, a) + Map(f, b)
  {
    var l, r := Map(f, a + b), Map(f, a) + Map(f, b);
    forall i | 0 <= i < |l|
      ensures l[i] == r[i]
    {
      if i < |a| {
        assert (a + b)[i] == a[i];
      } else {
        assert (a + b)[i] == b[i - |a|];
      }
    }
  }

  lemma MapStep<A, B>(f: A -> B, xs: seq<A>, j: nat)
    requires j < |xs|
    ensures Map(f, xs[..j + 1]) == Map(f, xs[..j]) + [f(xs[j])]
  {
    assert xs[..j + 1] == xs[..j] + [xs[j]];
    MapAppend(f, xs[..j], [xs[j]]);
  }

  function RefIndices(parts: seq<string>): seq<Option<int>> {
    Map(RefIndex, parts)
  }

  /** Triangle corners emitted for one face: a triangle as is, a quad as
      (a, b, c) then (a, c, d), anything else nothing at all. */
  function Triangulate(fv: seq<Option<int>>): (r: seq<Option<int>>)
    ensures |r| == if |fv| == 3 then 3 else if |fv| == 4 then 6 else 0
  {
    if |fv| == 3 then [fv[0], fv[1], fv[2]]
    else if |fv| == 4 then [fv[0], fv[1], fv[2]] + [fv[0], fv[2], fv[3]]
    else []
  }

  /** The records of all lines, in order. */
  function Records(lines: seq<string>): seq<Record> {
    Map(ReadRecord, lines)
  }

  /** What a record pushes onto `vertices`. */
  function RecordVertices(r: Record, parseFloat: string -> Num): (vs: seq<Num>)
    ensures |vs| == if r.VertexRecord? then 3 else 0
  {
    match r
    case VertexRecord(x, y, z) => [parseFloat(x), parseFloat(y), parseFloat(z)]
    case _ => []
  }

  /** What a record pushes onto `faces`. */
  function RecordFaces(r: Record): seq<Option<int>> {
    match r
    case FaceRecord(indices) => Triangulate(indices)
    case _ => []
  }

  function VertexCount(recs: seq<Record>): nat {
    if recs == [] then 0
    else VertexCount(recs[..|recs| - 1]) + (if recs[|recs| - 1].VertexRecord? then 1 else 0)
  }

  /** The `vertices` array after reading `recs`. */
  function Vertices(recs: seq<Record>, parseFloat: string -> Num): (r: seq<Num>)
    ensures |r| == 3 * VertexCount(recs)
  {
    if recs == [] then []
    else Vertices(recs[..|recs| - 1], parseFloat) + RecordVertices(recs[|recs| - 1], parseFloat)
  }

  /** The `faces` array after reading `recs`. */
  function Faces(recs: seq<Record>): seq<Option<int>> {
    if recs == [] then []
    else Faces(recs[..|recs| - 1]) + RecordFaces(recs[|recs| - 1])
  }

  predicate InRange(f: Option<int>, vertexCount: nat) {
    f.Some? && 0 <= f.value < vertexCount
  }

  /** The three coordinates at slot `i` of a flat buffer. */
  function Coords(buf: seq<Num>, i: nat): seq<Num>
    requires 3 * i + 3 <= |buf|
  {
    buf[3 * i..3 * i + 3]
  }

  /** `vertices[k]`: `undefined`, stored as NaN, when `k` is NaN or outside
      the array. */
  function At(vs: seq<Num>, k: Option<int>): Num {
    if k.Some? && 0 <= k.value < |vs| then vs[k.value] else NonFinite
  }

  /** `k * 3` and `k + d` on a possibly-NaN index. */
  function Times3(k: Option<int>): Option<int> {
    if k.Some? then Some(k.value * 3) else None
  }

  function Plus(k: Option<int>, d: int): Option<int> {
    if k.Some? then Some(k.value + d) else None
  }

  /** What one slot receives for face index `f`: the three entries from
      `vertices[3f]` on. */
  function Corner(vs: seq<Num>, f: Option<int>): (c: seq<Num>)
    ensures |c| == 3
  {
    var vi := Times3(f);
    [At(vs, vi), At(vs, Plus(vi, 1)), At(vs, Plus(vi, 2))]
  }

  /** The position buffer: slot `i` holds the corner named by face index `i`. */
  function Expand(vs: seq<Num>, fs: seq<Option<int>>): (p: seq<Num>)
    ensures |p| == 3 * |fs| && |p| % 3 == 0
  {
    if fs == [] then [] else Expand(vs, fs[..|fs| - 1]) + Corner(vs, fs[|fs| - 1])
  }

  function ParseLines(lines: seq<string>, parseFloat: string -> Num): (p: seq<Num>)
    ensures |p| % 3 == 0
  {
    var recs := Records(lines);
    Expand(Vertices(recs, parseFloat), Faces(recs))
  }

  /** `parseOBJ` up to the position buffer (the normals are left out). */
  function Parse(text: string, parseFloat: string -> Num): (p: seq<Num>)
    ensures |p| % 3 == 0
  {
    ParseLines(SplitOn(text, '\n'), parseFloat)
  }

  // ------------------------------------------------------------ lemmas

  lemma CoordsOfAppend(front: seq<Num>, c: seq<Num>, i: nat)
    requires |c| == 3 && 3 * i + 3 <= |front|
    ensures Coords(front + c, i) == Coords(front, i)
  {
    assert (front + c)[3 * i..3 * i + 3] == front[3 * i..3 * i + 3];
  }

  lemma CoordsOfLast(front: seq<Num>, c: seq<Num>)
    requires |c| == 3 && |front| % 3 == 0
    ensures Coords(front + c, |front| / 3) == c
  {
    assert (front + c)[|front|..|front| + 3] == c;
  }

  lemma {:induction false} ExpandSlot(vs: seq<Num>, fs: seq<Option<int>>, i: nat)
    requires i < |fs|
    ensures Coords(Expand(vs, fs), i) == Corner(vs, fs[i])
    decreases |fs|
  {
    var n := |fs| - 1;
    var front := Expand(vs, fs[..n]);
    assert Expand(vs, fs) == front + Corner(vs, fs[n]);
    if i < n {
      ExpandSlot(vs, fs[..n], i);
      assert fs[..n][i] == fs[i];
      CoordsOfAppend(front, Corner(vs, fs[n]), i);
    } else {
      CoordsOfLast(front, Corner(vs, fs[n]));
    }
  }

  /** Slot `i` of the buffer is the corner named by face index `i`. */
  lemma ExpandSlots(vs: seq<Num>, fs: seq<Option<int>>)
    ensures forall i :: 0 <= i < |fs| ==> Coords(Expand(vs, fs), i) == Corner(vs, fs[i])
  {
    forall i | 0 <= i < |fs|
      ensures Coords(Expand(vs, fs), i) == Corner(vs, fs[i])
    {
      ExpandSlot(vs, fs, i);
    }
  }

  /** With whole vertices in the array, a face index either reads one whole
      vertex or three NaNs: a slot is never half filled. */
  lemma CornerAllOrNothing(vs: seq<Num>, f: Option<int>)
    requires |vs| % 3 == 0
    ensures InRange(f, |vs| / 3) ==> Corner(vs, f) == Coords(vs, f.value)
    ensures !InRange(f, |vs| / 3) ==> Corner(vs, f) == [NonFinite, NonFinite, NonFinite]
  {
  }

  lemma AppendAssoc<T>(x: seq<T>, y: seq<T>, z: seq<T>)
    ensures x + y + z == x + (y + z)
  {
  }

  lemma {:induction false} VerticesAppend(a: seq<Record>, b: seq<Record>, parseFloat: string -> Num)
    ensures Vertices(a + b, parseFloat) == Vertices(a, parseFloat) + Vertices(b, parseFloat)
    decreases |b|
  {
    if b == [] {
      assert a + b == a;
    } else {
      var n := |b| - 1;
      var ab := a + b;
      assert ab[..|ab| - 1] == a + b[..n];
      assert ab[|ab| - 1] == b[n];
      assert Vertices(ab, parseFloat) == Vertices(a + b[..n], parseFloat) + RecordVertices(b[n], parseFloat);
      assert Vertices(b, parseFloat) == Vertices(b[..n], parseFloat) + RecordVertices(b[n], parseFloat);
      VerticesAppend(a, b[..n], parseFloat);
      AppendAssoc(Vertices(a, parseFloat), Vertices(b[..n], parseFloat), RecordVertices(b[n], parseFloat));
    }
  }

  lemma {:induction false} FacesAppend(a: seq<Record>, b: seq<Record>)
    ensures Faces(a + b) == Faces(a) + Faces(b)
    decreases |b|
  {
    if b == [] {
      assert a + b == a;
    } else {
      var n := |b| - 1;
      var ab := a + b;
      assert ab[..|ab| - 1] == a + b[..n];
      assert ab[|ab| - 1] == b[n];
      assert Faces(ab) == Faces(a + b[..n]) + RecordFaces(b[n]);
      assert Faces(b) == Faces(b[..n]) + RecordFaces(b[n]);
      FacesAppend(a, b[..n]);
      AppendAssoc(Faces(a), Faces(b[..n]), RecordFaces(b[n]));
    }
  }

  lemma {:induction false} SkippedAddNothing(recs: seq<Record>, parseFloat: string -> Num)
    requires forall i :: 0 <= i < |recs| ==> recs[i].Skipped?
    ensures Vertices(recs, parseFloat) == [] && Faces(recs) == []
    decreases |recs|
  {
    if recs != [] {
      SkippedAddNothing(recs[..|recs| - 1], parseFloat);
    }
  }

  lemma RecordsOfConcat(a: seq<string>, m: seq<string>, b: seq<string>)
    ensures Records(a + m + b) == Records(a) + Records(m) + Records(b)
  {
    MapAppend(ReadRecord, a + m, b);
    MapAppend(ReadRecord, a, m);
  }

  lemma SkippedRecordsAddNoVertices(ra: seq<Record>, rs: seq<Record>, rb: seq<Record>, parseFloat: string -> Num)
    requires Vertices(rs, parseFloat) == []
    ensures Vertices(ra + rs + rb, parseFloat) == Vertices(ra + rb, parseFloat)
  {
    VerticesAppend(ra + rs, rb, parseFloat);
    VerticesAppend(ra, rs, parseFloat);
    VerticesAppend(ra, rb, parseFloat);
    assert Vertices(ra, parseFloat) + [] == Vertices(ra, parseFloat);
  }

  lemma SkippedRecordsAddNoFaces(ra: seq<Record>, rs: seq<Record>, rb: seq<Record>)
    requires Faces(rs) == []
    ensures Faces(ra + rs + rb) == Faces(ra + rb)
  {
    FacesAppend(ra + rs, rb);
    FacesAppend(ra, rs);
    FacesAppend(ra, rb);
    assert Faces(ra) + [] == Faces(ra);
  }

  /** Blank lines, comments and unknown records (`vn`, `vt`, `o`, ...)
      anywhere in the file leave the geometry unchanged. */
  lemma SkippedLinesChangeNothing(a: seq<string>, skipped: seq<string>, b: seq<string>, parseFloat: string -> Num)
    requires forall i :: 0 <= i < |skipped| ==> ReadRecord(skipped[i]).Skipped?
    ensures ParseLines(a + skipped + b, parseFloat) == ParseLines(a + b, parseFloat)
  {
    RecordsOfConcat(a, skipped, b);
    MapAppend(ReadRecord, a, b);
    SkippedAddNothing(Records(skipped), parseFloat);
    SkippedRecordsAddNoVertices(Records(a), Records(skipped), Records(b), parseFloat);
    SkippedRecordsAddNoFaces(Records(a), Records(skipped), Records(b));
  }

  lemma SwapRecords(rf: seq<Record>, rv: seq<Record>, parseFloat: string -> Num)
    requires forall i :: 0 <= i < |rf| ==> !rf[i].VertexRecord?
    requires forall i :: 0 <= i < |rv| ==> !rv[i].FaceRecord?
    ensures Vertices(rf + rv, parseFloat) == Vertices(rv + rf, parseFloat)
    ensures Faces(rf + rv) == Faces(rv + rf)
  {
    NoVertexRecords(rf, parseFloat);
    NoFaceRecords(rv);
    VerticesAppend(rf, rv, parseFloat);
    VerticesAppend(rv, rf, parseFloat);
    FacesAppend(rf, rv);
    FacesAppend(rv, rf);
  }

  /** Faces are resolved only after the whole file is read, so a block of
      faces may come before the block of vertices it refers to. */
  lemma FacesMayPrecedeVertices(faceLines: seq<string>, vertexLines: seq<string>, parseFloat: string -> Num)
    requires forall i :: 0 <= i < |faceLines| ==> !ReadRecord(faceLines[i]).VertexRecord?
    requires forall i :: 0 <= i < |vertexLines| ==> !ReadRecord(vertexLines[i]).FaceRecord?
    ensures ParseLines(faceLines + vertexLines, parseFloat) == ParseLines(vertexLines + faceLines, parseFloat)
  {
    MapAppend(ReadRecord, faceLines, vertexLines);
    MapAppend(ReadRecord, vertexLines, faceLines);
    SwapRecords(Records(faceLines), Records(vertexLines), parseFloat);
  }

  lemma {:induction false} NoVertexRecords(recs: seq<Record>, parseFloat: string -> Num)
    requires forall i :: 0 <= i < |recs| ==> !recs[i].VertexRecord?
    ensures Vertices(recs, parseFloat) == []
    decreases |recs|
  {
    if recs != [] {
      NoVertexRecords(recs[..|recs| - 1], parseFloat);
    }
  }

  lemma {:induction false} NoFaceRecords(recs: seq<Record>)
    requires forall i :: 0 <= i < |recs| ==> !recs[i].FaceRecord?
    ensures Faces(recs) == []
    decreases |recs|
  {
    if recs != [] {
      NoFaceRecords(recs[..|recs| - 1]);
    }
  }

  /** Texture and normal indices after the first `/` are ignored. */
  lemma RefIndexIgnoresAttributes(p: string, rest: string)
    requires '/' !in p
    ensures RefIndex(p + ['/'] + rest) == RefIndex(p)
  {
    SplitOnHead(p, '/', rest);
    NoSeparatorSplit(p, '/');
    assert SplitOn(p + ['/'] + rest, '/')[0] == SplitOn(p, '/')[0];
  }

  /** The 1-based reference `n`, alone or followed by `/...`, names vertex
      `n - 1`. */
  lemma RefIndexOfNumber(n: nat, rest: string)
    requires rest == [] || rest[0] == '/'
    ensures RefIndex(NatToString(n) + rest) == Some(n - 1)
  {
    var ds := NatToString(n);
    assert '/' !in ds by {
      assert forall i :: 0 <= i < |ds| ==> IsDigit(ds[i]);
    }
    if rest == [] {
      assert ds + rest == ds;
      NoSeparatorSplit(ds, '/');
    } else {
      assert ds + rest == ds + ['/'] + rest[1..];
      SplitOnHead(ds, '/', rest[1..]);
    }
    ParseIntOfNatToString(n, []);
    assert ds + [] == ds;
  }

  /** `v x y z` with three words reads as that vertex. */
  lemma VertexLineReads(x: string, y: string, z: string)
    requires IsWord(x) && IsWord(y) && IsWord(z)
    ensures ReadRecord(Join(["v", x, y, z], ' ')) == VertexRecord(x, y, z)
  {
    assert forall i :: 0 <= i < |["v", x, y, z]| ==> IsWord(["v", x, y, z][i]);
    JoinedWords(["v", x, y, z]);
    JoinHead(["v", x, y, z]);
    TagSpace();
    ReadsAsVertex(Join(["v", x, y, z], ' '), x, y, z);
  }

  lemma JoinHead(ws: seq<string>)
    requires |ws| >= 2
    ensures StartsWith(Join(ws, ' '), ws[0] + [' '])
  {
    assert Join(ws, ' ') == ws[0] + [' '] + Join(ws[1..], ' ');
  }

  lemma ReadsAsVertex(line: string, x: string, y: string, z: string)
    requires Trim(line) == line && StartsWith(line, "v ")
    requires SplitWs(line) == ["v", x, y, z]
    ensures ReadRecord(line) == VertexRecord(x, y, z)
  {
    StartsWithExcludes(line, "v ", "#");
    ReadsVertex(line);
  }

  /** `f r1 r2 ...` with word references reads as a face over those references. */
  lemma FaceLineReads(refs: seq<string>)
    requires |refs| >= 1
    requires forall i :: 0 <= i < |refs| ==> IsWord(refs[i])
    ensures ReadRecord(Join(["f"] + refs, ' ')) == FaceRecord(RefIndices(refs))
  {
    TaggedLine("f", refs);
    TagSpace();
    assert (["f"] + refs)[1..] == refs;
    ReadsAsFace(Join(["f"] + refs, ' '), refs);
  }

  /** The record tags followed by the separating space. */
  lemma TagSpace()
    ensures "f" + [' '] == "f " && "v" + [' '] == "v "
  {
  }

  /** A tag and words joined by single spaces: trimmed, starting with the
      tag and a space, and splitting back into the tag and the words. */
  lemma TaggedLine(tag: string, refs: seq<string>)
    requires IsWord(tag) && |refs| >= 1
    requires forall i :: 0 <= i < |refs| ==> IsWord(refs[i])
    ensures var line := Join([tag] + refs, ' ');
            Trim(line) == line && StartsWith(line, tag + [' ']) && SplitWs(line) == [tag] + refs
  {
    var ws := [tag] + refs;
    WordsAfterTag(tag, refs);
    JoinedWords(ws);
    JoinHead(ws);
  }

  lemma WordsAfterTag(tag: string, refs: seq<string>)
    requires IsWord(tag)
    requires forall i :: 0 <= i < |refs| ==> IsWord(refs[i])
    ensures forall i :: 0 <= i < |[tag] + refs| ==> IsWord(([tag] + refs)[i])
  {
    var ws := [tag] + refs;
    forall i | 0 <= i < |ws|
      ensures IsWord(ws[i])
    {
      if i > 0 {
        assert ws[i] == refs[i - 1];
      }
    }
  }

  lemma ReadsAsFace(line: string, refs: seq<string>)
    requires Trim(line) == line && StartsWith(line, "f ")
    requires SplitWs(line)[1..] == refs
    ensures ReadRecord(line) == FaceRecord(RefIndices(refs))
  {
    StartsWithExcludes(line, "f ", "#");
    StartsWithExcludes(line, "f ", "v ");
    ReadsFace(line);
  }

  /** Every face contributes whole triangles to the face list. */
  lemma {:induction false} FacesAreTriangles(recs: seq<Record>)
    ensures |Faces(recs)| % 3 == 0
  {
    if recs != [] {
      FacesAreTriangles(recs[..|recs| - 1]);
      var n := |Faces(recs[..|recs| - 1])|;
      var m := |RecordFaces(recs[|recs| - 1])|;
      assert m == 0 || m == 3 || m == 6;
      assert |Faces(recs)| == n + m;
    }
  }

  /** The buffer holds three coordinates for each of three corners of each
      triangle. */
  lemma WholeTriangleBuffer(lines: seq<string>, parseFloat: string -> Num)
    ensures |ParseLines(lines, parseFloat)| % 9 == 0
  {
    FacesAreTriangles(Records(lines));
    ThreeTimesTriple(|Faces(Records(lines))|);
  }

  lemma ThreeTimesTriple(n: nat)
    requires n % 3 == 0
    ensures (3 * n) % 9 == 0
  {
    var k := n / 3;
    assert 3 * n == 9 * k;
  }

  /** Lines such as `vn ...` and `vt ...` start with `v` but not with `v `,
      so they add no vertex. */
  lemma VertexAttributeLinesSkipped(raw: string)
    requires |Trim(raw)| >= 2 && Trim(raw)[0] == 'v' && Trim(raw)[1] != ' '
    ensures ReadRecord(raw) == Skipped
  {
    var line := Trim(raw);
    assert line[..2][1] == line[1];
    assert !StartsWith(line, "#") by {
      assert line[..1][0] == line[0];
    }
    assert !StartsWith(line, "f ") by {
      assert line[..2][0] == line[0];
    }
    ReadsOther(raw);
  }

  /** A triangle is emitted as it is. */
  lemma TriangleKept(fv: seq<Option<int>>)
    requires |fv| == 3
    ensures Triangulate(fv) == fv
  {
    assert fv == [fv[0], fv[1], fv[2]];
  }

  /** A file whose every line is blank, a comment or an unknown record
      yields an empty buffer. */
  lemma OnlySkippedLinesGiveNothing(lines: seq<string>, parseFloat: string -> Num)
    requires forall i :: 0 <= i < |lines| ==> ReadRecord(lines[i]).Skipped?
    ensures ParseLines(lines, parseFloat) == []
  {
    SkippedAddNothing(Records(lines), parseFloat);
  }

  /** A quad becomes two triangles that share the diagonal (a, c) and
      between them use each corner, the diagonal's ends twice. */
  lemma QuadCoversCorners(fv: seq<Option<int>>)
    requires |fv| == 4
    ensures Triangulate(fv)[..3] == fv[..3]
    ensures Triangulate(fv)[3..] == [fv[0], fv[2], fv[3]]
    ensures fv[0] in Triangulate(fv)[3..] && fv[2] in Triangulate(fv)[3..]
    ensures multiset(Triangulate(fv)) == multiset(fv) + multiset{fv[0], fv[2]}
  {
    var t := Triangulate(fv);
    assert t[3..] == [fv[0], fv[2], fv[3]];
    assert fv == [fv[0], fv[1], fv[2], fv[3]];
  }

  /** One more line extends both arrays by what its record contributes. */
  lemma PrefixStep(recs: seq<Record>, n: nat, parseFloat: string -> Num)
    requires n < |recs|
    ensures Vertices(recs[..n + 1], parseFloat) == Vertices(recs[..n], parseFloat) + RecordVertices(recs[n], parseFloat)
    ensures Faces(recs[..n + 1]) == Faces(recs[..n]) + RecordFaces(recs[n])
  {
    assert recs[..n + 1][..n] == recs[..n];
  }

  /** The inner loop over the references of an `f` line. */
  method ReadFaceRefs(parts: seq<string>) returns (faceVertices: seq<Option<int>>)
    ensures faceVertices == RefIndices(parts)
  {
    faceVertices := [];
    for j := 0 to |parts|
      invariant faceVertices == RefIndices(parts[..j])
    {
      MapStep(RefIndex, parts, j);
      var indices := SplitOn(parts[j], '/');
      var k := ParseInt(indices[0]);
      var ref := if k.Some? then Some(k.value - 1) else None;
      assert ref == RefIndex(parts[j]);
      faceVertices := faceVertices + [ref];
    }
    assert parts[..|parts|] == parts;
  }

  lemma ExpandStep(vs: seq<Num>, fs: seq<Option<int>>, i: nat)
    requires i < |fs|
    ensures Expand(vs, fs[..i + 1]) == Expand(vs, fs[..i]) + Corner(vs, fs[i])
  {
    assert fs[..i + 1][..i] == fs[..i];
  }

  /** The loop filling the `Float32Array` of positions. */
  method FillPositions(vertices: seq<Num>, faces: seq<Option<int>>) returns (positions: seq<Num>)
    ensures positions == Expand(vertices, faces)
  {
    var buffer := new Num[|faces| * 3](_ => Finite(0.0));
    for i := 0 to |faces|
      invariant buffer[..3 * i] == Expand(vertices, faces[..i])
    {
      ExpandStep(vertices, faces, i);
      ghost var before := buffer[..];
      var vi := Times3(faces[i]);
      buffer[i * 3] := At(vertices, vi);
      buffer[i * 3 + 1] := At(vertices, Plus(vi, 1));
      buffer[i * 3 + 2] := At(vertices, Plus(vi, 2));
      assert buffer[..3 * i] == before[..3 * i];
      assert buffer[..3 * (i + 1)] == buffer[..3 * i] + Corner(vertices, faces[i]);
    }
    assert faces[..|faces|] == faces;
    positions := buffer[..];
  }

  /** The two `faces.push` branches of an `f` line. */
  method PushFace(faces: seq<Option<int>>, faceVertices: seq<Option<int>>) returns (out: seq<Option<int>>)
    ensures out == faces + Triangulate(faceVertices)
  {
    out := faces;
    if |faceVertices| == 3 {
      out := out + [faceVertices[0], faceVertices[1], faceVertices[2]];
    } else if |faceVertices| == 4 {
      out := out + [faceVertices[0], faceVertices[1], faceVertices[2]];
      out := out + [faceVertices[0], faceVertices[2], faceVertices[3]];
    }
  }

  lemma ReadsSkipped(raw: string)
    requires Trim(raw) == [] || StartsWith(Trim(raw), "#")
    ensures ReadRecord(raw) == Skipped
  {
  }

  lemma ReadsVertex(raw: string)
    requires Trim(raw) != [] && !StartsWith(Trim(raw), "#") && StartsWith(Trim(raw), "v ")
    ensures var parts := SplitWs(Trim(raw));
            ReadRecord(raw) == VertexRecord(Field(parts, 1), Field(parts, 2), Field(parts, 3))
  {
  }

  lemma ReadsFace(raw: string)
    requires Trim(raw) != [] && !StartsWith(Trim(raw), "#")
    requires !StartsWith(Trim(raw), "v ") && StartsWith(Trim(raw), "f ")
    ensures ReadRecord(raw) == FaceRecord(RefIndices(SplitWs(Trim(raw))[1..]))
  {
  }

  lemma ReadsOther(raw: string)
    requires Trim(raw) != [] && !StartsWith(Trim(raw), "#")
    requires !StartsWith(Trim(raw), "v ") && !StartsWith(Trim(raw), "f ")
    ensures ReadRecord(raw) == Skipped
  {
  }

  /** `parseOBJ` without the normals: one pass over the lines collecting
      `vertices` and `faces`, then the buffer fill. */
  method ParseObj(text: string, parseFloat: string -> Num) returns (positions: seq<Num>)
    ensures positions == Parse(text, parseFloat)
  {
    var lines := SplitOn(text, '\n');
    ghost var recs := Records(lines);
    var vertices: seq<Num> := [];
    var faces: seq<Option<int>> := [];
    for n := 0 to |lines|
      invariant vertices == Vertices(recs[..n], parseFloat)
      invariant faces == Faces(recs[..n])
    {
      PrefixStep(recs, n, parseFloat);
      var line := Trim(lines[n]);
      if line == [] || StartsWith(line, "#") {
        ReadsSkipped(lines[n]);
        continue;
      }
      if StartsWith(line, "v ") {
        ReadsVertex(lines[n]);
        var parts := SplitWs(line);
        vertices := vertices + [parseFloat(Field(parts, 1)), parseFloat(Field(parts, 2)), parseFloat(Field(parts, 3))];
      } else if StartsWith(line, "f ") {
        ReadsFace(lines[n]);
        var parts := SplitWs(line)[1..];
        var faceVertices := ReadFaceRefs(parts);
        faces := PushFace(faces, faceVertices);
      } else {
        ReadsOther(lines[n]);
      }
    }
    assert recs[..|lines|] == recs;
    positions := FillPositions(vertices, faces);
  }
}
