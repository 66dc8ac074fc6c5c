/**
 * The binary STL writer. A mesh given as a flat list of triangle
 * coordinates (nine per triangle) becomes an 80-byte header, the triangle
 * count as a little-endian 32-bit integer, and one 50-byte record per
 * triangle: its normal, its three vertices, and a zero attribute word.
 *
 * The float32 encoding of a number and three.js's `normalize` are not
 * modelled: the writer takes them as parameters `f32` (the four bytes
 * `setFloat32(offset, x, true)` stores, least significant first) and
 * `normalize`.
 */
module StlExporter {
  import opened Wrappers
  import opened Vectors
  import opened Planes

  /** A byte of the output buffer. */
  newtype byte = x: int | 0 <= x < 256

  type Float32Encoder = real -> (byte, byte, byte, byte)

  const HEADER_TEXT: string := "Antenna Base Designer - STL Export"

  /** What `setUint8(i, header.charCodeAt(i))` stores: the character code modulo 256. */
  function CharByte(c: char): byte
  {
    ((c as int) % 256) as byte
  }

  /** Byte i of the header: the i-th character code of the text, zero past its end. */
  function HeaderByte(i: nat): byte
  {
    if i < |HEADER_TEXT| then CharByte(HEADER_TEXT[i]) else 0
  }

  function Header(): (h: seq<byte>)
    ensures |h| == 80
    ensures forall i :: 0 <= i < 80 ==> h[i] == HeaderByte(i)
  {
    seq(80, i requires 0 <= i => HeaderByte(i))
  }

  /**
   * `setUint32(80, n, true)`: n is first reduced modulo 2^32, then its four
   * bytes are stored least significant first.
   */
  function Le32(n: nat): (r: seq<byte>)
    ensures |r| == 4
  {
    var u := n % 0x1_0000_0000;
    var q1 := u / 256;
    var q2 := q1 / 256;
    var q3 := q2 / 256;
    [(u % 256) as byte, (q1 % 256) as byte, (q2 % 256) as byte, (q3 % 256) as byte]
  }

  /** Reading four little-endian bytes back as an unsigned integer. */
  function Decode32(b: seq<byte>): nat
    requires |b| == 4
  {
    b[0] as nat + 256 * (b[1] as nat + 256 * (b[2] as nat + 256 * (b[3] as nat)))
  }

  /** The count the header holds decodes to the triangle count modulo 2^32. */
  lemma Le32RoundTrip(n: nat)
    ensures Decode32(Le32(n)) == n % 0x1_0000_0000
  {
    var u := n % 0x1_0000_0000;
    var q1 := u / 256;
    var q2 := q1 / 256;
    var q3 := q2 / 256;
    ByteSplit(u, 0x100_0000);
    ByteSplit(q1, 0x1_0000);
    ByteSplit(q2, 0x100);
  }

  /** Splitting off the low byte: x is its low byte plus 256 times the rest, and the rest is below m. */
  lemma ByteSplit(x: nat, m: nat)
    requires x < 256 * m
    ensures x == x % 256 + 256 * (x / 256) && x / 256 < m
  {
  }

  function F32Bytes(f32: Float32Encoder, x: real): (r: seq<byte>)
    ensures |r| == 4
  {
    var b := f32(x);
    [b.0, b.1, b.2, b.3]
  }

  /** Consecutive float32 values, four bytes each. */
  function FloatsBytes(f32: Float32Encoder, xs: seq<real>): (r: seq<byte>)
    ensures |r| == 4 * |xs|
  {
    if |xs| == 0 then [] else FloatsBytes(f32, xs[..|xs| - 1]) + F32Bytes(f32, xs[|xs| - 1])
  }

  /** The face normal the writer stores: `(v1 - v0) x (v2 - v0)`, normalised. */
  function FaceNormal(positions: seq<real>, i: nat, normalize: Vector3 -> Vector3): Vector3
    requires i + 9 <= |positions|
  {
    var v0 := Vector3(positions[i], positions[i + 1], positions[i + 2]);
    var v1 := Vector3(positions[i + 3], positions[i + 4], positions[i + 5]);
    var v2 := Vector3(positions[i + 6], positions[i + 7], positions[i + 8]);
    normalize(TriangleNormal(v0, v1, v2))
  }

  /** The twelve numbers the writer stores for the triangle at i: its face normal, then its nine coordinates. */
  function RecordFloats(positions: seq<real>, i: nat, normalize: Vector3 -> Vector3): (xs: seq<real>)
    requires i + 9 <= |positions|
    ensures |xs| == 12
  {
    var n := FaceNormal(positions, i, normalize);
    [n.x, n.y, n.z] + positions[i..i + 9]
  }

  /**
   * Byte j of a record whose twelve numbers are xs: byte j % 4 of the
   * float32 encoding of number j / 4, and zero for the attribute word at
   * bytes 48 and 49.
   */
  function RecordByte(f32: Float32Encoder, xs: seq<real>, j: nat): byte
    requires |xs| == 12 && j < 50
  {
    if j < 48 then F32Bytes(f32, xs[j / 4])[j % 4] else 0
  }

  /** The 50-byte record of the triangle whose coordinates start at i, byte by byte. */
  function Record(positions: seq<real>, i: nat, f32: Float32Encoder, normalize: Vector3 -> Vector3): (r: seq<byte>)
    requires i + 9 <= |positions|
    ensures |r| == 50
  {
    seq(50, j requires 0 <= j < 50 => RecordByte(f32, RecordFloats(positions, i, normalize), j))
  }

  /** The records of the first k triangles. */
  function Records(positions: seq<real>, k: nat, f32: Float32Encoder, normalize: Vector3 -> Vector3): seq<byte>
    requires 9 * k <= |positions|
  {
    if k == 0 then []
    else Records(positions, k - 1, f32, normalize) + Record(positions, 9 * (k - 1), f32, normalize)
  }

  /** The file `exportToSTL` produces for a buffer of whole triangles. */
  function StlImage(positions: seq<real>, f32: Float32Encoder, normalize: Vector3 -> Vector3): seq<byte>
    requires |positions| % 9 == 0
  {
    var count := |positions| / 9;
    Header() + Le32(count) + Records(positions, count, f32, normalize)
  }

  /**
   * `exportToSTL`. For a buffer that is not a whole number of triangles
   * the source's buffer is too short for the last, partial record, and
   * the DataView write past its end raises a RangeError; that is the
   * Failure here.
   */
  method ExportToSTL(positions: seq<real>, f32: Float32Encoder, normalize: Vector3 -> Vector3)
    returns (r: Result<seq<byte>, string>)
    ensures r.Failure? <==> |positions| % 9 != 0
    ensures r.Success? ==> r.value == StlImage(positions, f32, normalize)
  {
    if |positions| % 9 != 0 {
      return Failure("RangeError: Offset is outside the bounds of the DataView");
    }
    var triangleCount := |positions| / 9;
    var bytes := WriteImage(positions, triangleCount, f32, normalize);
    r := Success(bytes);
  }

  /** The buffer of `80 + 4 + triangleCount * 50` bytes, filled front to back. */
  method WriteImage(positions: seq<real>, triangleCount: nat, f32: Float32Encoder, normalize: Vector3 -> Vector3)
    returns (bytes: seq<byte>)
    requires |positions| == 9 * triangleCount
    ensures bytes == Header() + Le32(triangleCount) + Records(positions, triangleCount, f32, normalize)
  {
    var view := new byte[80 + 4 + triangleCount * 50];
    WriteHeader(view);
    SetUint32(view, 80, triangleCount);
    WriteTriangles(view, positions, triangleCount, f32, normalize);
    bytes := view[..];
  }

  /** The triangle loop: record k at offset 84 + 50 k, from the nine coordinates at 9 k. */
  method WriteTriangles(view: array<byte>, positions: seq<real>, triangleCount: nat, f32: Float32Encoder,
                        normalize: Vector3 -> Vector3)
    requires |positions| == 9 * triangleCount && view.Length == 84 + 50 * triangleCount
    modifies view
    ensures view[..] == old(view[..84]) + Records(positions, triangleCount, f32, normalize)
  {
    ghost var head := view[..84];
    var offset := 84;
    for k := 0 to triangleCount
      invariant offset == 84 + 50 * k
      invariant view[..offset] == head + Records(positions, k, f32, normalize)
    {
      WriteTriangle(view, offset, positions, k, head, f32, normalize);
      offset := offset + 50;
    }
    assert view[..] == view[..offset];
  }

  /** One pass of the triangle loop, appending record k to the k records before it. */
  method WriteTriangle(view: array<byte>, offset: nat, positions: seq<real>, k: nat, ghost head: seq<byte>,
                       f32: Float32Encoder, normalize: Vector3 -> Vector3)
    requires 9 * k + 9 <= |positions| && offset + 50 <= view.Length
    requires view[..offset] == head + Records(positions, k, f32, normalize)
    modifies view
    ensures view[..offset + 50] == head + Records(positions, k + 1, f32, normalize)
  {
    RecordsStep(head, positions, k, f32, normalize);
    WriteRecord(view, offset, positions, 9 * k, f32, normalize);
  }

  lemma RecordsStep(head: seq<byte>, positions: seq<real>, k: nat, f32: Float32Encoder, normalize: Vector3 -> Vector3)
    requires 9 * k + 9 <= |positions|
    ensures head + Records(positions, k + 1, f32, normalize)
      == head + Records(positions, k, f32, normalize) + Record(positions, 9 * k, f32, normalize)
  {
    var rs, r := Records(positions, k, f32, normalize), Record(positions, 9 * k, f32, normalize);
    assert Records(positions, k + 1, f32, normalize) == rs + r;
    assert head + (rs + r) == head + rs + r;
  }

  /** The header loop: `setUint8(i, i < header.length ? header.charCodeAt(i) : 0)` for i < 80. */
  method WriteHeader(view: array<byte>)
    requires 80 <= view.Length
    modifies view
    ensures view[..80] == Header()
  {
    for i := 0 to 80
      invariant forall j :: 0 <= j < i ==> view[j] == HeaderByte(j)
    {
      view[i] := if i < |HEADER_TEXT| then CharByte(HEADER_TEXT[i]) else 0;
    }
  }

  /** `setUint32(offset, n, true)`. */
  method SetUint32(view: array<byte>, offset: nat, n: nat)
    requires offset + 4 <= view.Length
    modifies view
    ensures view[..offset + 4] == old(view[..offset]) + Le32(n)
  {
    var b := Le32(n);
    view[offset] := b[0];
    view[offset + 1] := b[1];
    view[offset + 2] := b[2];
    view[offset + 3] := b[3];
  }

  /** `setFloat32(offset, x, true)`. */
  method SetFloat32(view: array<byte>, offset: nat, x: real, f32: Float32Encoder)
    requires offset + 4 <= view.Length
    modifies view
    ensures view[..offset + 4] == old(view[..offset]) + F32Bytes(f32, x)
  {
    var b := f32(x);
    view[offset] := b.0;
    view[offset + 1] := b.1;
    view[offset + 2] := b.2;
    view[offset + 3] := b.3;
  }

  /** `setUint16(offset, 0, true)`, the attribute byte count. */
  method SetUint16Zero(view: array<byte>, offset: nat)
    requires offset + 2 <= view.Length
    modifies view
    ensures view[..offset + 2] == old(view[..offset]) + [0, 0]
  {
    view[offset] := 0;
    view[offset + 1] := 0;
  }

  /**
   * One pass of the triangle loop: twelve `setFloat32` calls, each followed
   * by `offset += 4` (the normal, then the three vertices), and the attribute
   * word.
   */
  method WriteRecord(view: array<byte>, offset: nat, positions: seq<real>, i: nat, f32: Float32Encoder,
                     normalize: Vector3 -> Vector3)
    requires i + 9 <= |positions| && offset + 50 <= view.Length
    modifies view
    ensures view[..offset + 50] == old(view[..offset]) + Record(positions, i, f32, normalize)
  {
    var v0 := Vector3(positions[i], positions[i + 1], positions[i + 2]);
    var v1 := Vector3(positions[i + 3], positions[i + 4], positions[i + 5]);
    var v2 := Vector3(positions[i + 6], positions[i + 7], positions[i + 8]);
    var edge1 := v1.Subtract(v0);
    var edge2 := v2.Subtract(v0);
    var normal := normalize(edge1.Cross(edge2));
    var values := [normal.x, normal.y, normal.z] + positions[i..i + 9];
    assert values == RecordFloats(positions, i, normalize);
    ghost var pre := view[..offset];
    var o := offset;
    for j := 0 to 12
      invariant o == offset + 4 * j
      invariant view[..o] == pre + FloatsBytes(f32, values[..j])
    {
      WriteFloat(view, o, values, j, pre, f32);
      o := o + 4;
    }
    assert values[..12] == values;
    SetUint16Zero(view, o);
    assert pre + (FloatsBytes(f32, values) + [0, 0]) == pre + FloatsBytes(f32, values) + [0, 0];
    RecordWritten(positions, i, f32, normalize);
  }

  /** One `setFloat32` of a record, appending value j to the j values before it. */
  method WriteFloat(view: array<byte>, o: nat, values: seq<real>, j: nat, ghost pre: seq<byte>, f32: Float32Encoder)
    requires j < |values| && o + 4 <= view.Length
    requires view[..o] == pre + FloatsBytes(f32, values[..j])
    modifies view
    ensures view[..o + 4] == pre + FloatsBytes(f32, values[..j + 1])
  {
    SetFloat32(view, o, values[j], f32);
    assert values[..j + 1][..j] == values[..j];
    assert pre + (FloatsBytes(f32, values[..j]) + F32Bytes(f32, values[j]))
      == pre + FloatsBytes(f32, values[..j]) + F32Bytes(f32, values[j]);
  }

  // Properties of the file layout

  /** k records take 50 k bytes. */
  lemma {:induction false} RecordsLength(positions: seq<real>, k: nat, f32: Float32Encoder, normalize: Vector3 -> Vector3)
    requires 9 * k <= |positions|
    ensures |Records(positions, k, f32, normalize)| == 50 * k
  {
    if k > 0 {
      RecordsLength(positions, k - 1, f32, normalize);
    }
  }

  /** Within the first k records, record j occupies bytes 50 j to 50 j + 49. */
  lemma {:induction false} RecordsAt(positions: seq<real>, k: nat, j: nat, f32: Float32Encoder, normalize: Vector3 -> Vector3)
    requires 9 * k <= |positions| && j < k
    ensures |Records(positions, k, f32, normalize)| == 50 * k
    ensures Records(positions, k, f32, normalize)[50 * j..50 * j + 50] == Record(positions, 9 * j, f32, normalize)
  {
    RecordsLength(positions, k, f32, normalize);
    if j < k - 1 {
      RecordsAt(positions, k - 1, j, f32, normalize);
      EarlierRecord(positions, k, j, f32, normalize);
    } else {
      LastRecord(positions, k, f32, normalize);
      assert j == k - 1;
    }
  }

  /** A record found in the first k - 1 records is still in place after the k-th is appended. */
  lemma EarlierRecord(positions: seq<real>, k: nat, j: nat, f32: Float32Encoder, normalize: Vector3 -> Vector3)
    requires 9 * k <= |positions| && j < k - 1
    requires |Records(positions, k - 1, f32, normalize)| == 50 * (k - 1)
    requires Records(positions, k - 1, f32, normalize)[50 * j..50 * j + 50] == Record(positions, 9 * j, f32, normalize)
    ensures Records(positions, k, f32, normalize)[50 * j..50 * j + 50] == Record(positions, 9 * j, f32, normalize)
  {
    var prefix, last := Records(positions, k - 1, f32, normalize), Record(positions, 9 * (k - 1), f32, normalize);
    assert Records(positions, k, f32, normalize) == prefix + last;
    SliceOfAppend(prefix, last, 50 * j, 50 * j + 50);
  }

  /** The last of k records occupies the last 50 bytes. */
  lemma LastRecord(positions: seq<real>, k: nat, f32: Float32Encoder, normalize: Vector3 -> Vector3)
    requires 9 * k <= |positions| && 0 < k
    ensures |Records(positions, k, f32, normalize)| == 50 * k
    ensures Records(positions, k, f32, normalize)[50 * (k - 1)..50 * k] == Record(positions, 9 * (k - 1), f32, normalize)
  {
    var prefix := Records(positions, k - 1, f32, normalize);
    RecordsLength(positions, k - 1, f32, normalize);
    SliceOfRight(prefix, Record(positions, 9 * (k - 1), f32, normalize));
  }

  /** The right operand of a concatenation is its slice past the left one. */
  lemma SliceOfRight(a: seq<byte>, b: seq<byte>)
    ensures (a + b)[|a|..|a| + |b|] == b
  {
  }

  /** A slice that lies inside the left operand of a concatenation. */
  lemma SliceOfAppend(a: seq<byte>, b: seq<byte>, lo: nat, hi: nat)
    requires lo <= hi <= |a|
    ensures (a + b)[lo..hi] == a[lo..hi]
  {
  }

  /** The file is 84 + 50 T bytes for T triangles. */
  lemma ImageLength(positions: seq<real>, f32: Float32Encoder, normalize: Vector3 -> Vector3)
    requires |positions| % 9 == 0
    ensures |StlImage(positions, f32, normalize)| == 84 + 50 * (|positions| / 9)
  {
    RecordsLength(positions, |positions| / 9, f32, normalize);
  }

  /** Bytes 0 to 79 are the header text's character codes, then zeros. */
  lemma ImageHeader(positions: seq<real>, f32: Float32Encoder, normalize: Vector3 -> Vector3)
    requires |positions| % 9 == 0
    ensures |HEADER_TEXT| == 34 && |StlImage(positions, f32, normalize)| >= 80
    ensures forall i :: 0 <= i < |HEADER_TEXT| ==> StlImage(positions, f32, normalize)[i] as int == HEADER_TEXT[i] as int
    ensures forall i :: |HEADER_TEXT| <= i < 80 ==> StlImage(positions, f32, normalize)[i] == 0
  {
    var img := StlImage(positions, f32, normalize);
    assert img[..80] == Header();
    HeaderAscii();
  }

  /** Every character of the header text is ASCII, so its code fits in a byte unchanged. */
  lemma HeaderAscii()
    ensures forall i :: 0 <= i < |HEADER_TEXT| ==> HEADER_TEXT[i] as int < 128
  {
  }

  /** Bytes 80 to 83 read back, least significant first, as the triangle count modulo 2^32. */
  lemma ImageCount(positions: seq<real>, f32: Float32Encoder, normalize: Vector3 -> Vector3)
    requires |positions| % 9 == 0
    ensures |StlImage(positions, f32, normalize)| >= 84
    ensures Decode32(StlImage(positions, f32, normalize)[80..84]) == (|positions| / 9) % 0x1_0000_0000
  {
    var count := |positions| / 9;
    var img := StlImage(positions, f32, normalize);
    assert img[80..84] == Le32(count);
    Le32RoundTrip(count);
  }

  /** Triangle k's record occupies bytes 84 + 50 k to 84 + 50 k + 49. */
  lemma ImageRecord(positions: seq<real>, k: nat, f32: Float32Encoder, normalize: Vector3 -> Vector3)
    requires |positions| % 9 == 0 && k < |positions| / 9
    ensures |StlImage(positions, f32, normalize)| == 84 + 50 * (|positions| / 9)
    ensures StlImage(positions, f32, normalize)[84 + 50 * k..84 + 50 * k + 50] == Record(positions, 9 * k, f32, normalize)
  {
    var count := |positions| / 9;
    var head := Header() + Le32(count);
    var rs := Records(positions, count, f32, normalize);
    RecordsAt(positions, count, k, f32, normalize);
    assert (head + rs)[84 + 50 * k..84 + 50 * k + 50] == rs[50 * k..50 * k + 50];
  }

  /** Byte j of the encoding of a list is byte j % 4 of its value j / 4. */
  lemma {:induction false} FloatsBytesIndex(f32: Float32Encoder, xs: seq<real>, j: nat)
    requires j < 4 * |xs|
    ensures FloatsBytes(f32, xs)[j] == F32Bytes(f32, xs[j / 4])[j % 4]
  {
    var init := xs[..|xs| - 1];
    if j < 4 * |init| {
      FloatsBytesIndex(f32, init, j);
    } else {
      assert j / 4 == |init| && j % 4 == j - 4 * |init|;
    }
  }

  /**
   * The writer's order, twelve float32 values one after the other and then
   * the attribute word, is the byte-by-byte layout of a record.
   */
  lemma RecordWritten(positions: seq<real>, i: nat, f32: Float32Encoder, normalize: Vector3 -> Vector3)
    requires i + 9 <= |positions|
    ensures Record(positions, i, f32, normalize) == FloatsBytes(f32, RecordFloats(positions, i, normalize)) + [0, 0]
  {
    var xs := RecordFloats(positions, i, normalize);
    var r, w := Record(positions, i, f32, normalize), FloatsBytes(f32, xs) + [0, 0];
    forall j | 0 <= j < 50
      ensures r[j] == w[j]
    {
      if j < 48 {
        FloatsBytesIndex(f32, xs, j);
      }
    }
  }

  /**
   * A record holds the normal's x, y and z at bytes 0, 4 and 8, coordinate j
   * of the triangle at 12 + 4 j, and a zero attribute word at 48 and 49.
   */
  lemma RecordLayout(positions: seq<real>, i: nat, j: nat, f32: Float32Encoder, normalize: Vector3 -> Vector3)
    requires i + 9 <= |positions| && j < 9
    ensures var r := Record(positions, i, f32, normalize);
      var n := FaceNormal(positions, i, normalize);
      r[0..4] == F32Bytes(f32, n.x) && r[4..8] == F32Bytes(f32, n.y) && r[8..12] == F32Bytes(f32, n.z)
      && r[12 + 4 * j..16 + 4 * j] == F32Bytes(f32, positions[i + j])
      && r[48] == 0 && r[49] == 0
  {
    RecordSlot(positions, i, 0, f32, normalize);
    RecordSlot(positions, i, 1, f32, normalize);
    RecordSlot(positions, i, 2, f32, normalize);
    RecordSlot(positions, i, 3 + j, f32, normalize);
  }

  /** Bytes 4 m to 4 m + 3 of a record are the encoding of its number m. */
  lemma RecordSlot(positions: seq<real>, i: nat, m: nat, f32: Float32Encoder, normalize: Vector3 -> Vector3)
    requires i + 9 <= |positions| && m < 12
    ensures Record(positions, i, f32, normalize)[4 * m..4 * m + 4] == F32Bytes(f32, RecordFloats(positions, i, normalize)[m])
  {
    var r, b := Record(positions, i, f32, normalize), F32Bytes(f32, RecordFloats(positions, i, normalize)[m]);
    forall d | 0 <= d < 4
      ensures r[4 * m + d] == b[d]
    {
      assert (4 * m + d) / 4 == m && (4 * m + d) % 4 == d;
    }
  }
}
