/** The planar YUV_420_888 to NV21 repack of `CamEngine.convertYuvToJpeg`.

    NV21 is the full luma plane, row after row, followed by the chroma
    samples of every second row and column, interleaved V then U. Each plane
    of the source frame has its own row stride, and the chroma planes their
    own pixel stride. The repack reads the source through `ByteBuffer`s, so a
    read outside a plane throws; the exception leaves `convertYuvToJpeg`, and
    this model returns `None` for it. */
module FrameRepack {
  import opened Common

  /** `android.graphics.ImageFormat` constants. */
  const NV21: int := 0x11
  const YUV_420_888: int := 0x23
  const JPEG: int := 0x100

  datatype Plane = Plane(buffer: seq<byte>, rowStride: nat, pixelStride: nat)

  datatype YuvImageData = YuvImageData(width: nat, height: nat, y: Plane, u: Plane, v: Plane, format: int)

  /** Size of the `nv21` array: `width * height * 3 / 2`. */
  function Nv21Size(width: nat, height: nat): nat
  {
    width * height * 3 / 2
  }

  function Zeros(n: nat): (s: seq<byte>)
    ensures |s| == n && forall i :: 0 <= i < n ==> s[i] == 0
  {
    seq(n, _ => 0)
  }

  // ---------------------------------------------------------------------
  // Which reads stay inside the planes

  /** Row `row` of the luma plane: `width` bytes from `row * rowStride`. */
  predicate LumaRowFits(p: Plane, width: nat, row: nat)
  {
    row * p.rowStride + width <= |p.buffer|
  }

  predicate LumaRowsFit(p: Plane, width: nat, rows: nat)
  {
    forall row :: 0 <= row < rows ==> LumaRowFits(p, width, row)
  }

  /** Offset of chroma sample (row, col) in its plane. */
  function SampleIndex(p: Plane, row: nat, col: nat): nat
  {
    row * p.rowStride + col * p.pixelStride
  }

  /** The V sample is read first, then the U sample. */
  predicate SampleFits(v: Plane, u: Plane, row: nat, col: nat)
  {
    SampleIndex(v, row, col) < |v.buffer| && SampleIndex(u, row, col) < |u.buffer|
  }

  predicate ChromaFits(v: Plane, u: Plane, rows: nat, cols: nat)
  {
    forall row, col :: 0 <= row < rows && 0 <= col < cols ==> SampleFits(v, u, row, col)
  }

  /** No read of the repack leaves its plane, so no exception is thrown. */
  predicate Readable(f: YuvImageData)
  {
    LumaRowsFit(f.y, f.width, f.height) && ChromaFits(f.v, f.u, f.height / 2, f.width / 2)
  }

  // ---------------------------------------------------------------------
  // The NV21 layout, as a specification

  /** The first `rows` luma rows, each `width` bytes taken from its own row start. */
  function LumaRows(p: Plane, width: nat, rows: nat): (s: seq<byte>)
    requires LumaRowsFit(p, width, rows)
    ensures |s| == rows * width
  {
    if rows == 0 then []
    else
      assert LumaRowFits(p, width, rows - 1);
      LumaRows(p, width, rows - 1) + p.buffer[(rows - 1) * p.rowStride .. (rows - 1) * p.rowStride + width]
  }

  /** The V,U pairs of the first `cols` columns of chroma row `row`. */
  function ChromaRow(v: Plane, u: Plane, row: nat, cols: nat): (s: seq<byte>)
    requires forall col :: 0 <= col < cols ==> SampleFits(v, u, row, col)
    ensures |s| == 2 * cols
  {
    if cols == 0 then []
    else
      assert SampleFits(v, u, row, cols - 1);
      ChromaRow(v, u, row, cols - 1) + [v.buffer[SampleIndex(v, row, cols - 1)], u.buffer[SampleIndex(u, row, cols - 1)]]
  }

  function ChromaRows(v: Plane, u: Plane, rows: nat, cols: nat): (s: seq<byte>)
    requires ChromaFits(v, u, rows, cols)
    ensures |s| == 2 * (rows * cols)
  {
    if rows == 0 then []
    else
      var last := rows - 1;
      assert forall col :: 0 <= col < cols ==> SampleFits(v, u, last, col);
      ChromaRows(v, u, last, cols) + ChromaRow(v, u, last, cols)
  }

  /** The chroma part ends inside the `nv21` array (odd sizes leave a zero tail). */
  lemma ChromaEndBound(width: nat, height: nat)
    ensures width * height + 2 * ((height / 2) * (width / 2)) <= Nv21Size(width, height)
  {
    var a, b := height / 2, width / 2;
    assert height >= 2 * a && width >= 2 * b;
    MulMono(2 * a, height, 2 * b, width);
    assert width * height >= (2 * a) * (2 * b);
    assert (2 * a) * (2 * b) == 4 * (a * b);
    assert width * height * 3 == 2 * (width * height) + width * height;
  }

  lemma ProductNat(a: nat, b: nat)
    ensures a * b >= 0
  {
  }

  lemma MulMono(a: nat, a': nat, b: nat, b': nat)
    requires a <= a' && b <= b'
    ensures a * b <= a' * b'
  {
    assert a * b <= a' * b;
    assert a' * b <= a' * b';
  }

  /** The whole `nv21` array the repack fills. */
  function Nv21(f: YuvImageData): (s: seq<byte>)
    requires Readable(f)
  {
    ChromaEndBound(f.width, f.height);
    var body := LumaRows(f.y, f.width, f.height) + ChromaRows(f.v, f.u, f.height / 2, f.width / 2);
    body + Zeros(Nv21Size(f.width, f.height) - |body|)
  }

  // ---------------------------------------------------------------------
  // Index maps of the layout

  lemma RowMajorBound(r: nat, c: nat, width: nat, rows: nat)
    requires r < rows && c < width
    ensures r * width + c < rows * width
  {
    assert (r + 1) * width <= rows * width by { MulMono(r + 1, rows, width, width); }
  }

  /** Position of column `c` of row `r` in a row-major layout with the given
      row stride. */
  function Offset(r: nat, stride: nat, c: nat): nat
  {
    r * stride + c
  }

  /** Luma pixel (r, c) sits at `r * width + c` and comes from `r * rowStride + c`. */
  lemma {:induction false} LumaRowsAt(p: Plane, width: nat, rows: nat, r: nat, c: nat)
    requires LumaRowsFit(p, width, rows)
    requires r < rows && c < width
    ensures Offset(r, p.rowStride, c) < |p.buffer|
    ensures Offset(r, width, c) < |LumaRows(p, width, rows)|
    ensures LumaRows(p, width, rows)[Offset(r, width, c)] == p.buffer[Offset(r, p.rowStride, c)]
  {
    assert LumaRowFits(p, width, r);
    RowMajorBound(r, c, width, rows);
    assert LumaRowFits(p, width, rows - 1);
    var last := (rows - 1) * p.rowStride;
    var prev := LumaRows(p, width, rows - 1);
    var tail := p.buffer[last .. last + width];
    assert LumaRows(p, width, rows) == prev + tail;
    if r < rows - 1 {
      LumaRowsAt(p, width, rows - 1, r, c);
    } else {
      var k := r * width;
      assert k == |prev|;
      assert (prev + tail)[k + c] == tail[c];
    }
  }

  /** Chroma pair (r, c) sits at `2 * (r * cols + c)`, V first, then U. */
  lemma {:induction false} ChromaRowAt(v: Plane, u: Plane, row: nat, cols: nat, c: nat)
    requires forall col :: 0 <= col < cols ==> SampleFits(v, u, row, col)
    requires c < cols
    ensures SampleFits(v, u, row, c)
    ensures ChromaRow(v, u, row, cols)[2 * c] == v.buffer[SampleIndex(v, row, c)]
    ensures ChromaRow(v, u, row, cols)[2 * c + 1] == u.buffer[SampleIndex(u, row, c)]
  {
    if c < cols - 1 {
      ChromaRowAt(v, u, row, cols - 1, c);
    }
  }

  lemma {:induction false} ChromaRowsAt(v: Plane, u: Plane, rows: nat, cols: nat, r: nat, c: nat)
    requires ChromaFits(v, u, rows, cols)
    requires r < rows && c < cols
    ensures SampleFits(v, u, r, c)
    ensures 2 * (r * cols + c) + 1 < |ChromaRows(v, u, rows, cols)|
    ensures ChromaRows(v, u, rows, cols)[2 * (r * cols + c)] == v.buffer[SampleIndex(v, r, c)]
    ensures ChromaRows(v, u, rows, cols)[2 * (r * cols + c) + 1] == u.buffer[SampleIndex(u, r, c)]
  {
    var k := r * cols + c;
    RowMajorBound(r, c, cols, rows);
    var last := rows - 1;
    var prefix := ChromaRows(v, u, last, cols);
    assert forall col :: 0 <= col < cols ==> SampleFits(v, u, last, col);
    var tail := ChromaRow(v, u, last, cols);
    assert ChromaRows(v, u, rows, cols) == prefix + tail;
    if r < last {
      ChromaRowsAt(v, u, last, cols, r, c);
    } else {
      assert |prefix| == 2 * (r * cols);
      ChromaRowAt(v, u, r, cols, c);
      assert 2 * k == |prefix| + 2 * c;
    }
  }

  /** The three parts of the `nv21` array and where they start. */
  lemma Nv21Parts(f: YuvImageData)
    requires Readable(f)
    ensures |LumaRows(f.y, f.width, f.height)| == f.width * f.height
    ensures |ChromaRows(f.v, f.u, f.height / 2, f.width / 2)| == 2 * ((f.height / 2) * (f.width / 2))
    ensures f.width * f.height + 2 * ((f.height / 2) * (f.width / 2)) <= Nv21Size(f.width, f.height)
    ensures Nv21(f) == LumaRows(f.y, f.width, f.height) + ChromaRows(f.v, f.u, f.height / 2, f.width / 2)
                       + Zeros(Nv21Size(f.width, f.height) - f.width * f.height - 2 * ((f.height / 2) * (f.width / 2)))
  {
    ChromaEndBound(f.width, f.height);
    assert f.height * f.width == f.width * f.height;
  }

  /** The output has length `width * height * 3 / 2`. */
  lemma Nv21Length(f: YuvImageData)
    requires Readable(f)
    ensures |Nv21(f)| == f.width * f.height * 3 / 2
  {
    Nv21Parts(f);
  }

  /** `out[r * width + c] == y[r * yRowStride + c]` for every luma pixel. */
  lemma Nv21LumaAt(f: YuvImageData, r: nat, c: nat)
    requires Readable(f)
    requires r < f.height && c < f.width
    ensures Offset(r, f.width, c) < |Nv21(f)|
    ensures Offset(r, f.y.rowStride, c) < |f.y.buffer|
    ensures Nv21(f)[Offset(r, f.width, c)] == f.y.buffer[Offset(r, f.y.rowStride, c)]
  {
    Nv21Parts(f);
    LumaRowsAt(f.y, f.width, f.height, r, c);
  }

  /** Position of chroma pair (r, c) in the NV21 array. */
  function Nv21ChromaIndex(width: nat, height: nat, r: nat, c: nat): nat
  {
    width * height + 2 * (r * (width / 2) + c)
  }

  /** For r < height/2 and c < width/2 the pair at
      `width * height + 2 * (r * (width/2) + c)` is V then U, each read at
      `row * rowStride + col * pixelStride` of its own plane. */
  lemma Nv21ChromaAt(f: YuvImageData, r: nat, c: nat)
    requires Readable(f)
    requires r < f.height / 2 && c < f.width / 2
    ensures Nv21ChromaIndex(f.width, f.height, r, c) + 1 < |Nv21(f)|
    ensures SampleIndex(f.v, r, c) < |f.v.buffer| && SampleIndex(f.u, r, c) < |f.u.buffer|
    ensures Nv21(f)[Nv21ChromaIndex(f.width, f.height, r, c)] == f.v.buffer[SampleIndex(f.v, r, c)]
    ensures Nv21(f)[Nv21ChromaIndex(f.width, f.height, r, c) + 1] == f.u.buffer[SampleIndex(f.u, r, c)]
  {
    ProductNat(r, f.width / 2);
    var k := 2 * (r * (f.width / 2) + c);
    ChromaRowsAt(f.v, f.u, f.height / 2, f.width / 2, r, c);
    Nv21Middle(f, k);
    Nv21Middle(f, k + 1);
  }

  /** Byte `k` of the chroma part sits at `width * height + k`. */
  lemma Nv21Middle(f: YuvImageData, k: nat)
    requires Readable(f)
    requires k < |ChromaRows(f.v, f.u, f.height / 2, f.width / 2)|
    ensures f.width * f.height + k < |Nv21(f)|
    ensures Nv21(f)[f.width * f.height + k] == ChromaRows(f.v, f.u, f.height / 2, f.width / 2)[k]
  {
    Nv21Parts(f);
  }

  /** Bytes after the chroma part (odd width or height) stay 0. */
  lemma Nv21PaddingZero(f: YuvImageData, i: nat)
    requires Readable(f)
    requires f.width * f.height + 2 * ((f.height / 2) * (f.width / 2)) <= i < Nv21Size(f.width, f.height)
    ensures i < |Nv21(f)| && Nv21(f)[i] == 0
  {
    Nv21Parts(f);
  }

  // ---------------------------------------------------------------------
  // The bulk path

  /** When `rowStride == width` the rows are back to back, so they are
      exactly the first `rows * width` bytes of the plane. */
  lemma {:induction false} PackedRowsArePrefix(p: Plane, width: nat, rows: nat)
    requires p.rowStride == width && rows * width <= |p.buffer|
    ensures LumaRowsFit(p, width, rows)
    ensures LumaRows(p, width, rows) == p.buffer[..rows * width]
  {
    PackedRowsFit(p, width, rows);
    if rows > 0 {
      RowStepBound(rows - 1, rows, width);
      PackedRowsArePrefix(p, width, rows - 1);
      var k := (rows - 1) * width;
      assert p.buffer[..k] + p.buffer[k .. k + width] == p.buffer[..k + width];
    }
  }

  /** With `rowStride == width` the row loop's reads fit exactly when the
      bulk `get` of `width * height` bytes does. */
  lemma PackedRowsFit(p: Plane, width: nat, rows: nat)
    requires p.rowStride == width
    ensures LumaRowsFit(p, width, rows) <==> rows * width <= |p.buffer|
  {
    if rows * width <= |p.buffer| {
      forall row | 0 <= row < rows ensures LumaRowFits(p, width, row) {
        MulMono(row + 1, rows, width, width);
      }
    }
    if LumaRowsFit(p, width, rows) && rows > 0 {
      assert LumaRowFits(p, width, rows - 1);
    }
  }

  /** The bulk-copy path taken when `rowStride == width` fails exactly when
      the row loop would, and otherwise gives the same bytes. */
  lemma BulkCopyMatchesRowLoop(f: YuvImageData)
    requires f.y.rowStride == f.width
    ensures LumaRowsFit(f.y, f.width, f.height) <==> f.width * f.height <= |f.y.buffer|
    ensures f.width * f.height <= |f.y.buffer| ==>
      f.y.buffer[..f.width * f.height] == LumaRows(f.y, f.width, f.height)
  {
    assert f.height * f.width == f.width * f.height;
    PackedRowsFit(f.y, f.width, f.height);
    if f.width * f.height <= |f.y.buffer| {
      PackedRowsArePrefix(f.y, f.width, f.height);
    }
  }

  // ---------------------------------------------------------------------
  // The repack, as the source runs it

  /** `ByteBuffer.get(dst, off, len)` after `position(pos)`. */
  method BulkGet(src: seq<byte>, pos: nat, dst: array<byte>, off: nat, len: nat)
    requires pos + len <= |src| && off + len <= dst.Length
    modifies dst
    ensures dst[..off] == old(dst[..off])
    ensures dst[off .. off + len] == src[pos .. pos + len]
    ensures dst[off + len ..] == old(dst[off + len ..])
  {
    var i := 0;
    while i < len
      invariant 0 <= i <= len
      invariant forall k :: off <= k < off + i ==> dst[k] == src[pos + (k - off)]
      invariant forall k :: 0 <= k < dst.Length && !(off <= k < off + i) ==> dst[k] == old(dst[k])
    {
      dst[off + i] := src[pos + i];
      i := i + 1;
    }
    assert dst[off .. off + len] == src[pos .. pos + len];
  }

  /** The luma half of the repack: one bulk `get` when `rowStride == width`,
      otherwise one `get` of `width` bytes per row. `false` is the underflow
      exception. */
  method CopyLuma(f: YuvImageData, nv21: array<byte>) returns (ok: bool)
    requires f.width * f.height <= nv21.Length
    requires nv21[..] == Zeros(nv21.Length)
    modifies nv21
    ensures ok <==> LumaRowsFit(f.y, f.width, f.height)
    ensures ok ==> nv21[..] == LumaRows(f.y, f.width, f.height) + Zeros(nv21.Length - f.width * f.height)
  {
    if f.y.rowStride == f.width {
      ok := CopyLumaPacked(f, nv21);
    } else {
      ok := CopyLumaRows(f, nv21);
    }
  }

  /** `yByteBuffer.get(nv21, 0, width * height)`. */
  method CopyLumaPacked(f: YuvImageData, nv21: array<byte>) returns (ok: bool)
    requires f.y.rowStride == f.width
    requires f.width * f.height <= nv21.Length
    requires nv21[..] == Zeros(nv21.Length)
    modifies nv21
    ensures ok <==> LumaRowsFit(f.y, f.width, f.height)
    ensures ok ==> nv21[..] == LumaRows(f.y, f.width, f.height) + Zeros(nv21.Length - f.width * f.height)
  {
    var n := f.width * f.height;
    BulkCopyMatchesRowLoop(f);
    if n > |f.y.buffer| {
      return false;
    }
    ghost var before := nv21[..];
    BulkGet(f.y.buffer, 0, nv21, 0, n);
    FillFront(before, nv21[..], f.y.buffer[0 .. n]);
    return true;
  }

  /** An array that was `prefix` followed by zeros, after a bulk `get` of
      `piece` right behind `prefix`, is `prefix + piece` followed by zeros. */
  lemma AppendPiece(before: seq<byte>, after: seq<byte>, prefix: seq<byte>, piece: seq<byte>)
    requires |prefix| + |piece| <= |before| == |after|
    requires before == prefix + Zeros(|before| - |prefix|)
    requires after[..|prefix|] == before[..|prefix|]
    requires after[|prefix| .. |prefix| + |piece|] == piece
    requires after[|prefix| + |piece| ..] == before[|prefix| + |piece| ..]
    ensures after == prefix + piece + Zeros(|before| - |prefix| - |piece|)
  {
    var n, m := |prefix|, |piece|;
    assert after == after[..n] + after[n .. n + m] + after[n + m ..];
    assert before[..n] == prefix;
    assert before[n + m ..] == Zeros(|before| - n - m);
  }

  /** An all-zero array after a bulk `get` of `piece` at its front. */
  lemma FillFront(before: seq<byte>, after: seq<byte>, piece: seq<byte>)
    requires |piece| <= |before| == |after| && before == Zeros(|before|)
    requires after[0 .. |piece|] == piece
    requires after[|piece| ..] == before[|piece| ..]
    ensures after == piece + Zeros(|before| - |piece|)
  {
    assert after == after[0 .. |piece|] + after[|piece| ..];
  }

  /** An array holding the first `row` luma rows followed by zeros, after
      a bulk `get` of row `row` right behind them, holds `row + 1` rows
      followed by zeros. */
  lemma AppendLumaRow(p: Plane, width: nat, row: nat, before: seq<byte>, after: seq<byte>)
    requires LumaRowsFit(p, width, row) && LumaRowFits(p, width, row)
    requires |LumaRows(p, width, row)| + width <= |before| == |after|
    requires before == LumaRows(p, width, row) + Zeros(|before| - |LumaRows(p, width, row)|)
    requires var yPos, start := |LumaRows(p, width, row)|, row * p.rowStride;
      after[..yPos] == before[..yPos] &&
      after[yPos .. yPos + width] == p.buffer[start .. start + width] &&
      after[yPos + width ..] == before[yPos + width ..]
    ensures LumaRowsFit(p, width, row + 1)
    ensures after == LumaRows(p, width, row + 1) + Zeros(|before| - |LumaRows(p, width, row)| - width)
  {
    var start := row * p.rowStride;
    AppendPiece(before, after, LumaRows(p, width, row), p.buffer[start .. start + width]);
    assert LumaRows(p, width, row + 1) == LumaRows(p, width, row) + p.buffer[start .. start + width];
  }

  /** For each row: `position(row * rowStride)`, then `get(nv21, yPos, width)`. */
  method CopyLumaRows(f: YuvImageData, nv21: array<byte>) returns (ok: bool)
    requires f.width * f.height <= nv21.Length
    requires nv21[..] == Zeros(nv21.Length)
    modifies nv21
    ensures ok <==> LumaRowsFit(f.y, f.width, f.height)
    ensures ok ==> nv21[..] == LumaRows(f.y, f.width, f.height) + Zeros(nv21.Length - f.width * f.height)
  {
    var width, height := f.width, f.height;
    var yPos := 0;
    var row := 0;
    while row < height
      invariant 0 <= row <= height
      invariant yPos == row * width && yPos <= nv21.Length
      invariant LumaRowsFit(f.y, width, row)
      invariant nv21[..] == LumaRows(f.y, width, row) + Zeros(nv21.Length - yPos)
    {
      RowStepBound(row, height, width);
      assert yPos + width <= nv21.Length;
      var rowOk := CopyLumaRow(f, nv21, row, yPos);
      if !rowOk {
        return false;
      }
      yPos := yPos + width;
      row := row + 1;
    }
    return true;
  }

  /** One pass of the luma row loop: row `row` goes to `yPos`, right after
      the rows before it; `false` when the row leaves the plane. */
  method CopyLumaRow(f: YuvImageData, nv21: array<byte>, row: nat, yPos: nat) returns (ok: bool)
    requires LumaRowsFit(f.y, f.width, row)
    requires yPos == |LumaRows(f.y, f.width, row)| && yPos + f.width <= nv21.Length
    requires nv21[..] == LumaRows(f.y, f.width, row) + Zeros(nv21.Length - yPos)
    modifies nv21
    ensures ok <==> LumaRowsFit(f.y, f.width, row + 1)
    ensures ok ==> nv21[..] == LumaRows(f.y, f.width, row + 1) + Zeros(nv21.Length - yPos - f.width)
  {
    ProductNat(row, f.y.rowStride);
    var start := row * f.y.rowStride;
    if start + f.width > |f.y.buffer| {
      assert !LumaRowFits(f.y, f.width, row);
      return false;
    }
    ghost var before := nv21[..];
    BulkGet(f.y.buffer, start, nv21, yPos, f.width);
    AppendLumaRow(f.y, f.width, row, before, nv21[..]);
    return true;
  }

  /** One chroma row of `cols` (`width / 2`) columns: for each column, read
      V at `vRowStart + col * vPixelStride` and U at `uRowStart + col *
      uPixelStride` (the `SampleIndex` of each plane), and store them at
      `vuPos`. The array holds `written` followed by zeros, with `vuPos`
      starting right after `written`. */
  method CopyChromaRow(f: YuvImageData, nv21: array<byte>, row: nat, cols: nat, start: nat, ghost written: seq<byte>)
      returns (ok: bool)
    requires start == |written| && start + 2 * cols <= nv21.Length
    requires nv21[..] == written + Zeros(nv21.Length - start)
    modifies nv21
    ensures ok <==> forall c :: 0 <= c < cols ==> SampleFits(f.v, f.u, row, c)
    ensures ok ==> nv21[..] == written + ChromaRow(f.v, f.u, row, cols) + Zeros(nv21.Length - start - 2 * cols)
  {
    var vuPos := start;
    var col := 0;
    while col < cols
      invariant 0 <= col <= cols
      invariant vuPos == start + 2 * col
      invariant forall c :: 0 <= c < col ==> SampleFits(f.v, f.u, row, c)
      invariant nv21[..] == written + ChromaRow(f.v, f.u, row, col) + Zeros(nv21.Length - vuPos)
    {
      var sampleOk := CopySample(f, nv21, row, col, vuPos, written + ChromaRow(f.v, f.u, row, col));
      if !sampleOk {
        return false;
      }
      ChromaRowNext(f.v, f.u, row, col, written);
      vuPos := vuPos + 2;
      col := col + 1;
    }
    return true;
  }

  /** One pass of the column loop: read V, then U, at their `SampleIndex`
      and store them at `vuPos`, right after `written`; `false` when either
      read leaves its plane. */
  method CopySample(f: YuvImageData, nv21: array<byte>, row: nat, col: nat, vuPos: nat, ghost written: seq<byte>)
      returns (ok: bool)
    requires vuPos == |written| && vuPos + 2 <= nv21.Length
    requires nv21[..] == written + Zeros(nv21.Length - vuPos)
    modifies nv21
    ensures ok <==> SampleFits(f.v, f.u, row, col)
    ensures ok ==> nv21[..] == written + [f.v.buffer[SampleIndex(f.v, row, col)], f.u.buffer[SampleIndex(f.u, row, col)]]
                               + Zeros(nv21.Length - vuPos - 2)
  {
    var vIndex := SampleIndex(f.v, row, col);
    if vIndex >= |f.v.buffer| {
      return false;
    }
    var vPixel := f.v.buffer[vIndex];
    var uIndex := SampleIndex(f.u, row, col);
    if uIndex >= |f.u.buffer| {
      return false;
    }
    var uPixel := f.u.buffer[uIndex];
    ghost var before := nv21[..];
    nv21[vuPos] := vPixel;
    nv21[vuPos + 1] := uPixel;
    assert nv21[..] == before[vuPos := vPixel][vuPos + 1 := uPixel];
    WritePair(before, written, vPixel, uPixel);
    return true;
  }

  /** Writing a pair right after `prefix` into `prefix` followed by zeros. */
  lemma WritePair(before: seq<byte>, prefix: seq<byte>, x: byte, y: byte)
    requires |prefix| + 2 <= |before| && before == prefix + Zeros(|before| - |prefix|)
    ensures before[|prefix| := x][|prefix| + 1 := y] == prefix + [x, y] + Zeros(|before| - |prefix| - 2)
  {
  }

  /** One more column appends its V,U pair (behind any `prefix`). */
  lemma ChromaRowNext(v: Plane, u: Plane, row: nat, col: nat, prefix: seq<byte>)
    requires forall c :: 0 <= c < col ==> SampleFits(v, u, row, c)
    requires SampleFits(v, u, row, col)
    ensures forall c :: 0 <= c < col + 1 ==> SampleFits(v, u, row, c)
    ensures prefix + ChromaRow(v, u, row, col) + [v.buffer[SampleIndex(v, row, col)], u.buffer[SampleIndex(u, row, col)]]
      == prefix + ChromaRow(v, u, row, col + 1)
  {
    var pair := [v.buffer[SampleIndex(v, row, col)], u.buffer[SampleIndex(u, row, col)]];
    assert ChromaRow(v, u, row, col + 1) == ChromaRow(v, u, row, col) + pair;
  }

  /** One more row appends that row's pairs (behind any `prefix`). */
  lemma ChromaRowsNext(v: Plane, u: Plane, row: nat, cols: nat, prefix: seq<byte>)
    requires ChromaFits(v, u, row, cols)
    requires forall c :: 0 <= c < cols ==> SampleFits(v, u, row, c)
    ensures ChromaFits(v, u, row + 1, cols)
    ensures prefix + ChromaRows(v, u, row, cols) + ChromaRow(v, u, row, cols) == prefix + ChromaRows(v, u, row + 1, cols)
  {
    assert ChromaRows(v, u, row + 1, cols) == ChromaRows(v, u, row, cols) + ChromaRow(v, u, row, cols);
  }

  /** The chroma half of the repack, row by row after the luma plane. */
  method CopyChroma(f: YuvImageData, nv21: array<byte>) returns (ok: bool)
    requires f.width * f.height + 2 * ((f.height / 2) * (f.width / 2)) <= nv21.Length
    requires nv21[f.width * f.height ..] == Zeros(nv21.Length - f.width * f.height)
    modifies nv21
    ensures ok <==> ChromaFits(f.v, f.u, f.height / 2, f.width / 2)
    ensures ok ==> nv21[..] == old(nv21[..f.width * f.height]) + ChromaRows(f.v, f.u, f.height / 2, f.width / 2)
                               + Zeros(nv21.Length - f.width * f.height - 2 * ((f.height / 2) * (f.width / 2)))
  {
    var yPos := f.width * f.height;
    ghost var luma := nv21[..yPos];
    assert nv21[..] == luma + nv21[yPos..];
    ok := CopyChromaRows(f, nv21, f.height / 2, f.width / 2, yPos, luma);
  }

  /** The row loop of the chroma half: `rows` rows of `cols` columns
      written from `yPos`, right after the luma plane `luma`. */
  method CopyChromaRows(f: YuvImageData, nv21: array<byte>, rows: nat, cols: nat, yPos: nat, ghost luma: seq<byte>)
      returns (ok: bool)
    requires yPos == |luma| && yPos + 2 * (rows * cols) <= nv21.Length
    requires nv21[..] == luma + Zeros(nv21.Length - yPos)
    modifies nv21
    ensures ok <==> ChromaFits(f.v, f.u, rows, cols)
    ensures ok ==> nv21[..] == luma + ChromaRows(f.v, f.u, rows, cols) + Zeros(nv21.Length - yPos - 2 * (rows * cols))
  {
    var vuPos := yPos;
    var row := 0;
    while row < rows
      invariant 0 <= row <= rows
      invariant vuPos == yPos + 2 * (row * cols) && vuPos <= nv21.Length
      invariant ChromaFits(f.v, f.u, row, cols)
      invariant nv21[..] == luma + ChromaRows(f.v, f.u, row, cols) + Zeros(nv21.Length - vuPos)
    {
      RowStepBound(row, rows, cols);
      assert vuPos + 2 * cols <= nv21.Length;
      var rowOk := CopyChromaRow(f, nv21, row, cols, vuPos, luma + ChromaRows(f.v, f.u, row, cols));
      if !rowOk {
        return false;
      }
      ChromaRowsNext(f.v, f.u, row, cols, luma);
      vuPos := vuPos + 2 * cols;
      row := row + 1;
    }
    return true;
  }

  /** Row `row + 1` of a row-major layout still ends inside `rows` rows. */
  lemma RowStepBound(row: nat, rows: nat, cols: nat)
    requires row < rows
    ensures row * cols + cols <= rows * cols
    ensures (row + 1) * cols == row * cols + cols
  {
    MulMono(row + 1, rows, cols, cols);
  }

  /** The repack part of `convertYuvToJpeg` (its format check excepted):
      fills a zeroed `nv21` array with the luma rows, then the V,U pairs.
      `None` is the exception a read outside a plane throws. */
  method RepackNv21(f: YuvImageData) returns (r: Option<seq<byte>>)
    ensures r.Some? <==> Readable(f)
    ensures r.Some? ==> r.value == Nv21(f)
  {
    var nv21 := new byte[f.width * f.height * 3 / 2](_ => 0);
    ChromaEndBound(f.width, f.height);
    assert nv21[..] == Zeros(nv21.Length);
    var lumaOk := CopyLuma(f, nv21);
    if !lumaOk {
      return None;
    }
    assert nv21[f.width * f.height ..] == Zeros(nv21.Length - f.width * f.height);
    var chromaOk := CopyChroma(f, nv21);
    if !chromaOk {
      return None;
    }
    Nv21Parts(f);
    r := Some(nv21[..]);
  }

  /** `convertYuvToJpeg`: an empty result for any format but YUV_420_888;
      otherwise the NV21 repack handed to the JPEG encoder (`YuvImage` and
      `compressToJpeg`, a foreign call given as `compress`, which yields an
      empty array when it throws). `None` is an exception out of the repack. */
  method ConvertYuvToJpeg(f: YuvImageData, quality: int,
                          compress: (seq<byte>, nat, nat, int) -> seq<byte>)
    returns (r: Option<seq<byte>>)
    ensures f.format != YUV_420_888 ==> r == Some([])
    ensures f.format == YUV_420_888 ==>
      (r.Some? <==> Readable(f)) &&
      (r.Some? ==> r.value == compress(Nv21(f), f.width, f.height, quality))
  {
    if f.format != YUV_420_888 {
      return Some([]);
    }
    var nv21 := RepackNv21(f);
    if nv21.None? {
      return None;
    }
    r := Some(compress(nv21.value, f.width, f.height, quality));
  }
}
