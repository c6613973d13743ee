/**
 * Pictures handed to the video output, and the copy that packs a pitched
 * plane into a tight buffer (the compacting texture upload of the gles2
 * plugin, used when the driver cannot unpack with a row length).
 */
module Upload {
  import opened Geometry
  import opened Gpu

  /** VLC_CODEC_I420 = VLC_FOURCC('I','4','2','0'), the four bytes packed little-endian. */
  const I420: nat := 0x3032_3449

  /**
   * One plane of a picture_t (p->p[i]). Its memory belongs to the
   * picture's owner and the display only reads it, so it is a value here.
   */
  datatype Plane = Plane(
    pixels: seq<byte>,    // the bytes p_pixels points to
    pitch: nat,           // i_pitch: bytes from one row to the next
    pixelPitch: nat,      // i_pixel_pitch: bytes per pixel
    visiblePitch: nat,    // i_visible_pitch: bytes of a row that are shown
    visibleLines: nat)    // i_visible_lines

  /** A picture_t: its chroma and its planes. */
  datatype Picture = Picture(chroma: nat, planes: seq<Plane>)

  /** The fields of a video_format_t the plugin reads. */
  datatype VideoFormat = VideoFormat(
    chroma: nat,          // i_chroma
    width: nat,           // i_width
    height: nat,          // i_height
    visibleWidth: nat,    // i_visible_width
    visibleHeight: nat)   // i_visible_height

  /** A numerator and denominator of a chroma description (c->p[i].w or c->p[i].h). */
  datatype Fraction = Fraction(num: nat, den: nat)

  /** How one plane's width and height relate to the visible size of the picture. */
  datatype PlaneScale = PlaneScale(w: Fraction, h: Fraction)

  /** I420: full-size luma, chroma planes halved on both axes. */
  const I420Scales: seq<PlaneScale> := [
    PlaneScale(Fraction(1, 1), Fraction(1, 1)),
    PlaneScale(Fraction(1, 2), Fraction(1, 2)),
    PlaneScale(Fraction(1, 2), Fraction(1, 2))
  ]

  predicate ValidScale(s: PlaneScale) { s.w.den > 0 && s.h.den > 0 }

  /** `n * num / den` in unsigned arithmetic. */
  function Scale(n: nat, f: Fraction): nat
    requires f.den > 0
  {
    n * f.num / f.den
  }

  /** The step the compacting copy adds to its source pointer per row: i_pitch / i_pixel_pitch. */
  function SourceStride(p: Plane): nat
    requires p.pixelPitch > 0
  {
    p.pitch / p.pixelPitch
  }

  /** The first `rows` rows of `src`, `line` bytes each and `stride` apart, back to back. */
  function Compacted(src: seq<byte>, stride: nat, line: nat, rows: nat): (buf: seq<byte>)
    requires Covers(|src|, line, rows, stride)
    ensures |buf| == line * rows
  {
    if rows == 0 || line == 0 then []
    else
      var start := (rows - 1) * stride;
      CoversFewerRows(|src|, line, rows, stride);
      Compacted(src, stride, line, rows - 1) + src[start .. start + line]
  }

  lemma CoversFewerRows(size: nat, line: nat, rows: nat, stride: nat)
    requires rows > 0 && Covers(size, line, rows, stride)
    ensures Covers(size, line, rows - 1, stride)
  {
    if line > 0 && rows > 1 {
      MulMonotone(rows - 2, rows - 1, stride);
    }
  }

  /** Byte (r, c) of the compacted buffer is byte c of row r of the source. */
  lemma CompactedAt(src: seq<byte>, stride: nat, line: nat, rows: nat, r: nat, c: nat)
    requires Covers(|src|, line, rows, stride)
    requires r < rows && c < line
    ensures r * line + c < line * rows && r * stride + c < |src|
    ensures Compacted(src, stride, line, rows)[r * line + c] == src[r * stride + c]
  {
    RowInRange(|src|, line, rows, stride, r, c);
    IndexInRows(r, c, line, rows);
    CompactedAtIndex(src, stride, line, rows, r, c, r * line + c, r * stride + c);
  }

  /** CompactedAt with the two offsets named, by induction on the number of rows. */
  lemma {:induction false} CompactedAtIndex(src: seq<byte>, stride: nat, line: nat, rows: nat, r: nat, c: nat, k: nat, j: nat)
    requires Covers(|src|, line, rows, stride)
    requires r < rows && c < line
    requires k == r * line + c && k < line * rows
    requires j == r * stride + c && j < |src|
    ensures Compacted(src, stride, line, rows)[k] == src[j]
  {
    if r < rows - 1 {
      CoversFewerRows(|src|, line, rows, stride);
      IndexInRows(r, c, line, rows - 1);
      CompactedAtIndex(src, stride, line, rows - 1, r, c, k, j);
      CompactedKeepsPrefix(src, stride, line, rows, k);
    } else {
      CompactedLastRow(src, stride, line, rows, c);
    }
  }

  /** Adding the last row leaves the bytes of the earlier rows in place. */
  lemma CompactedKeepsPrefix(src: seq<byte>, stride: nat, line: nat, rows: nat, k: nat)
    requires Covers(|src|, line, rows, stride) && rows > 0 && k < line * (rows - 1)
    ensures Covers(|src|, line, rows - 1, stride) && k < line * rows
    ensures Compacted(src, stride, line, rows)[k] == Compacted(src, stride, line, rows - 1)[k]
  {
    CoversFewerRows(|src|, line, rows, stride);
    MulMonotone(rows - 1, rows, line);
    assert line * (rows - 1) == (rows - 1) * line && line * rows == rows * line;
  }

  /** The last row of the compacted buffer is the last row of the source. */
  lemma CompactedLastRow(src: seq<byte>, stride: nat, line: nat, rows: nat, c: nat)
    requires Covers(|src|, line, rows, stride) && rows > 0 && c < line
    ensures (rows - 1) * line + c < line * rows && (rows - 1) * stride + c < |src|
    ensures Compacted(src, stride, line, rows)[(rows - 1) * line + c] == src[(rows - 1) * stride + c]
  {
    CoversFewerRows(|src|, line, rows, stride);
    IndexInRows(rows - 1, c, line, rows);
    var prefix := Compacted(src, stride, line, rows - 1);
    assert |prefix| == (rows - 1) * line by {
      assert line * (rows - 1) == (rows - 1) * line;
    }
  }

  /** Row r, column c of a `line`-wide buffer of `rows` rows lies inside it. */
  lemma IndexInRows(r: nat, c: nat, line: nat, rows: nat)
    requires r < rows && c < line
    ensures r * line + c < line * rows
  {
    MulMonotone(r + 1, rows, line);
    assert (r + 1) * line == r * line + line;
    assert rows * line == line * rows;
  }

  /** One more row appends that row of the source. */
  lemma CompactedStep(src: seq<byte>, stride: nat, line: nat, rows: nat, r: nat)
    requires Covers(|src|, line, rows, stride) && r < rows && line > 0
    ensures Covers(|src|, line, r + 1, stride) && Covers(|src|, line, r, stride)
    ensures r * stride + line <= |src|
    ensures Compacted(src, stride, line, r + 1) == Compacted(src, stride, line, r) + src[r * stride .. r * stride + line]
  {
    MulMonotone(r, rows - 1, stride);
    if r > 0 {
      MulMonotone(r - 1, rows - 1, stride);
    }
  }

  /** memcpy(dst + dstAt, src + srcAt, n). */
  method MemCopy(dst: array<byte>, dstAt: nat, src: seq<byte>, srcAt: nat, n: nat)
    requires dstAt + n <= dst.Length && srcAt + n <= |src|
    modifies dst
    ensures dst[..] == old(dst[..dstAt]) + src[srcAt .. srcAt + n] + old(dst[dstAt + n ..])
  {
    forall i | 0 <= i < n {
      dst[dstAt + i] := src[srcAt + i];
    }
    assert dst[..] == old(dst[..dstAt]) + src[srcAt .. srcAt + n] + old(dst[dstAt + n ..]);
  }

  /**
   * The inner loop of update_textures_complex for one plane: copy `rows`
   * rows of `line` bytes, advancing the source by `stride` and the
   * destination by `line` after each row.
   */
  method CompactRows(src: seq<byte>, stride: nat, line: nat, rows: nat, buf: array<byte>)
    requires Covers(|src|, line, rows, stride)
    requires buf.Length == line * rows
    modifies buf
    ensures buf[..] == Compacted(src, stride, line, rows)
  {
    var srcAt, dstAt := 0, 0;
    var r := 0;
    while r < rows
      invariant r <= rows
      invariant srcAt == r * stride && dstAt == r * line
      invariant dstAt <= buf.Length
      invariant buf[..dstAt] == Compacted(src, stride, line, r)
    {
      assert (r + 1) * stride == srcAt + stride && (r + 1) * line == dstAt + line;
      MulMonotone(r + 1, rows, line);
      if line > 0 {
        // an empty row copies nothing, wherever the source pointer is
        CompactedStep(src, stride, line, rows, r);
        ghost var before := buf[..];
        MemCopy(buf, dstAt, src, srcAt, line);
        CopiedPrefix(before, buf[..], dstAt, src[srcAt .. srcAt + line]);
      }
      srcAt, dstAt := srcAt + stride, dstAt + line;
      r := r + 1;
    }
    assert buf[..] == buf[..dstAt];
  }

  lemma CopiedPrefix(before: seq<byte>, after: seq<byte>, at: nat, row: seq<byte>)
    requires at + |row| <= |before|
    requires after == before[..at] + row + before[at + |row| ..]
    ensures after[..at + |row|] == before[..at] + row
  {
  }

  /**
   * The two upload strategies give the same texels: uploading the
   * compacted buffer with the row length at 0 builds the same image as
   * uploading the pitched plane directly with the row length set to the
   * stride.
   */
  lemma StrategiesAgree(src: seq<byte>, stride: nat, line: nat, rows: nat)
    requires Covers(|src|, line, rows, stride) && stride > 0
    ensures Covers(line * rows, line, rows, RowStride(0, line))
    ensures Unpack(Compacted(src, stride, line, rows), line, rows, 0) == Unpack(src, line, rows, stride)
  {
    var buf := Compacted(src, stride, line, rows);
    UnpackTight(buf, line, rows);
    var direct := Unpack(src, line, rows, stride);
    forall k | 0 <= k < line * rows
      ensures buf[k] == direct[k]
    {
      RowInHeight(k, line, rows);
      var r, c := k / line, k % line;
      CompactedAt(src, stride, line, rows, r, c);
      UnpackAt(src, line, rows, stride, r, c);
    }
  }
}
