/**
 * libgles2.js: the matrix transpose done before uniform uploads, the
 * uniformMatrix uploads that use it, and the surface-size cache of a
 * context. Values are those of a Float32Array,
 * written here as reals; the values come from Java floats, so storing
 * them rounds nothing.
 */
module Gles2 {
  import opened Wrappers

  /** The sizes transposeMatrix supports. */
  predicate Supported(n: nat)
  {
    n == 3 || n == 4
  }

  /** The n-by-n matrix `m`, read row by row, written column by column. */
  function Transpose(m: seq<real>, n: nat): (r: seq<real>)
    requires Supported(n) && |m| == n * n
    ensures |r| == n * n
  {
    if n == 3 then seq(9, i requires 0 <= i < 9 => m[(i % 3) * 3 + i / 3])
    else seq(16, i requires 0 <= i < 16 => m[(i % 4) * 4 + i / 4])
  }

  /** out[c*n + r] == in[r*n + c] for every row r and column c. */
  lemma TransposeIndex(m: seq<real>, n: nat, row: nat, col: nat)
    requires Supported(n) && |m| == n * n && row < n && col < n
    ensures 0 <= col * n + row < n * n && 0 <= row * n + col < n * n
    ensures Transpose(m, n)[col * n + row] == m[row * n + col]
  {
    if n == 3 {
      var i := col * 3 + row;
      assert i % 3 == row && i / 3 == col;
    } else {
      var i := col * 4 + row;
      assert i % 4 == row && i / 4 == col;
    }
  }

  /** Entries on the diagonal stay where they are. */
  lemma TransposeDiagonal(m: seq<real>, n: nat, k: nat)
    requires Supported(n) && |m| == n * n && k < n
    ensures 0 <= k * n + k < n * n && Transpose(m, n)[k * n + k] == m[k * n + k]
  {
    TransposeIndex(m, n, k, k);
  }

  /** Transposing twice gives back the matrix. */
  lemma TransposeInvolution(m: seq<real>, n: nat)
    requires Supported(n) && |m| == n * n
    ensures Transpose(Transpose(m, n), n) == m
  {
    var t := Transpose(m, n);
    forall i | 0 <= i < n * n
      ensures Transpose(t, n)[i] == m[i]
    {
      var row, col := i / n, i % n;
      assert i == row * n + col && row < n;
      TransposeIndex(t, n, col, row);
      TransposeIndex(m, n, row, col);
    }
  }

  /** The 3-by-3 transpose written out entry by entry. */
  lemma Transpose3(m: seq<real>)
    requires |m| == 9
    ensures Transpose(m, 3) == [m[0], m[3], m[6], m[1], m[4], m[7], m[2], m[5], m[8]]
  {
  }

  /** The 4-by-4 transpose written out entry by entry. */
  lemma Transpose4(m: seq<real>)
    requires |m| == 16
    ensures Transpose(m, 4) == [m[0], m[4], m[8], m[12], m[1], m[5], m[9], m[13],
                                m[2], m[6], m[10], m[14], m[3], m[7], m[11], m[15]]
  {
  }

  /** TypedArray.prototype.set(matrix, 0): `matrix` over the start of `buffer`, the rest left as it was. */
  function SetAtStart(buffer: seq<real>, matrix: seq<real>): (r: seq<real>)
    requires |matrix| <= |buffer|
    ensures |r| == |buffer| && r[..|matrix|] == matrix && r[|matrix|..] == buffer[|matrix|..]
  {
    matrix + buffer[|matrix|..]
  }

  /** `fa.subarray(0, 9)` when `fa` is not 9 long: its first 9 entries, or all of a shorter one. */
  function First9(fa: seq<real>): (r: seq<real>)
    ensures |r| <= 9 && |r| <= |fa| && r == fa[..|r|]
    ensures |fa| >= 9 ==> |r| == 9
  {
    if |fa| <= 9 then fa else fa[..9]
  }

  /**
   * What uniformMatrix3fv uploads as written: a matrix to transpose goes
   * through transposeMatrix with size 4, so it is laid over the 4-by-4
   * scratch buffer `buf4` and transposed as a 4-by-4 matrix.
   */
  function Upload3AsWritten(fa: seq<real>, transpose: bool, buf4: seq<real>): (r: seq<real>)
    requires |buf4| == 16
    ensures transpose ==> |r| == 16
    ensures !transpose ==> r == First9(fa)
  {
    var m := First9(fa);
    if transpose then Transpose(SetAtStart(buf4, m), 4) else m
  }

  /** What uniformMatrix3fv uploads with the transpose done at size 3, through the 3-by-3 scratch buffer `buf3`. */
  function Upload3(fa: seq<real>, transpose: bool, buf3: seq<real>): (r: seq<real>)
    requires |buf3| == 9
    ensures |fa| >= 9 && transpose ==> r == Transpose(fa[..9], 3)
    ensures !transpose ==> r == First9(fa)
  {
    var m := First9(fa);
    if transpose then
      var b := SetAtStart(buf3, m);
      assert |fa| >= 9 ==> b == b[..9] == m == fa[..9];
      Transpose(b, 3)
    else m
  }

  /**
   * As written, a transposed 3-by-3 upload has 16 entries, not 9, and its
   * second entry is the matrix's centre, not its second row's first entry.
   */
  lemma Upload3AsWrittenMisplaces(fa: seq<real>, buf3: seq<real>, buf4: seq<real>)
    requires |fa| == 9 && |buf3| == 9 && |buf4| == 16
    ensures |Upload3AsWritten(fa, true, buf4)| == 16 && |Upload3(fa, true, buf3)| == 9
    ensures Upload3AsWritten(fa, true, buf4)[1] == fa[4]
    ensures Upload3(fa, true, buf3)[1] == fa[3]
  {
    assert fa[..9] == fa;
    Transpose3(fa);
    var b := SetAtStart(buf4, fa);
    assert b[4] == fa[4];
    Transpose4(b);
  }

  /** The 3-by-3 identity. */
  const Identity3: seq<real> := [1.0, 0.0, 0.0, 0.0, 1.0, 0.0, 0.0, 0.0, 1.0]

  /** Transposing the identity as written puts a 1 off the diagonal; the size-3 transpose keeps it the identity. */
  lemma IdentityAsWritten(buf3: seq<real>, buf4: seq<real>)
    requires |buf3| == 9 && |buf4| == 16
    ensures Upload3AsWritten(Identity3, true, buf4)[1] == 1.0
    ensures Upload3(Identity3, true, buf3) == Identity3
  {
    Upload3AsWrittenMisplaces(Identity3, buf3, buf4);
    assert Identity3[..9] == Identity3;
    Transpose3(Identity3);
  }

  /** The corrected upload, transposed back, is the matrix given. */
  lemma Upload3RoundTrip(fa: seq<real>, buf3: seq<real>)
    requires |fa| == 9 && |buf3| == 9
    ensures Transpose(Upload3(fa, true, buf3), 3) == fa
  {
    assert fa[..9] == fa;
    TransposeInvolution(fa, 3);
  }

  /** The two shared scratch buffers of transposeMatrix. */
  class Scratch {
    const tmatrix3x3: array<real>
    const tmatrix4x4: array<real>

    ghost predicate Valid()
      reads this
    {
      tmatrix3x3.Length == 9 && tmatrix4x4.Length == 16 && tmatrix3x3 != tmatrix4x4
    }

    constructor ()
      ensures Valid() && fresh(tmatrix3x3) && fresh(tmatrix4x4)
    {
      tmatrix3x3 := new real[9](_ => 0.0);
      tmatrix4x4 := new real[16](_ => 0.0);
    }

    /** Swap two entries of a scratch buffer (`[a[i], a[j]] = [a[j], a[i]]`). */
    static method Swap(a: array<real>, i: nat, j: nat)
      requires i < a.Length && j < a.Length
      modifies a
      ensures a[..] == old(a[..])[i := old(a[j])][j := old(a[i])]
    {
      a[i], a[j] := a[j], a[i];
    }

    /** The swaps for size 3: (1,3), (2,6), (5,7). */
    static method Swaps3(a: array<real>)
      requires a.Length == 9
      modifies a
      ensures a[..] == Transpose(old(a[..]), 3)
    {
      Transpose3(a[..]);
      Swap(a, 1, 3);
      Swap(a, 2, 6);
      Swap(a, 5, 7);
    }

    /** The swaps for size 4: (1,4), (2,8), (3,12), (6,9), (7,13), (11,14). */
    static method Swaps4(a: array<real>)
      requires a.Length == 16
      modifies a
      ensures a[..] == Transpose(old(a[..]), 4)
    {
      Transpose4(a[..]);
      FirstRowSwaps4(a);
      InnerSwaps4(a);
    }

    /** The swaps of size 4 that touch the first row and column. */
    static method FirstRowSwaps4(a: array<real>)
      requires a.Length == 16
      modifies a
      ensures var m := old(a[..]);
              a[..] == [m[0], m[4], m[8], m[12], m[1], m[5], m[6], m[7],
                        m[2], m[9], m[10], m[11], m[3], m[13], m[14], m[15]]
    {
      Swap(a, 1, 4);
      Swap(a, 2, 8);
      Swap(a, 3, 12);
    }

    /** The remaining swaps of size 4, which leave the first row and column alone. */
    static method InnerSwaps4(a: array<real>)
      requires a.Length == 16
      modifies a
      ensures var m := old(a[..]);
              a[..] == [m[0], m[1], m[2], m[3], m[4], m[5], m[9], m[13],
                        m[8], m[6], m[10], m[14], m[12], m[7], m[11], m[15]]
    {
      Swap(a, 6, 9);
      Swap(a, 7, 13);
      Swap(a, 11, 14);
    }

    /** TypedArray.prototype.set(matrix, 0), which throws when `matrix` does not fit. */
    static method SetFromStart(a: array<real>, matrix: seq<real>) returns (ok: bool)
      modifies a
      ensures ok <==> |matrix| <= a.Length
      ensures ok ==> a[..] == SetAtStart(old(a[..]), matrix)
      ensures !ok ==> unchanged(a)
    {
      if |matrix| > a.Length {
        return false;
      }
      var m := SetAtStart(a[..], matrix);
      forall i | 0 <= i < a.Length {
        a[i] := m[i];
      }
      return true;
    }

    /**
     * transposeMatrix(matrix, size). Sizes 3 and 4 copy `matrix` into the
     * buffer of that size, transpose it in place and return the buffer
     * itself, so the next call of that size overwrites the result. A
     * matrix longer than the buffer makes `set` throw; a shorter one
     * leaves the buffer's old tail in place. Any other size throws. The
     * input is never written.
     */
    method TransposeMatrix(matrix: seq<real>, size: int) returns (r: Result<array<real>, string>)
      requires Valid()
      modifies tmatrix3x3, tmatrix4x4
      ensures Valid()
      ensures size != 3 && size != 4 ==> r.Err? && unchanged(tmatrix3x3) && unchanged(tmatrix4x4)
      ensures size == 3 && |matrix| <= 9 ==>
                r == Ok(tmatrix3x3) && unchanged(tmatrix4x4)
                && tmatrix3x3[..] == Transpose(SetAtStart(old(tmatrix3x3[..]), matrix), 3)
      ensures size == 4 && |matrix| <= 16 ==>
                r == Ok(tmatrix4x4) && unchanged(tmatrix3x3)
                && tmatrix4x4[..] == Transpose(SetAtStart(old(tmatrix4x4[..]), matrix), 4)
      ensures (size == 3 && |matrix| > 9) || (size == 4 && |matrix| > 16) ==>
                r.Err? && unchanged(tmatrix3x3) && unchanged(tmatrix4x4)
    {
      if size == 3 {
        var ok := SetFromStart(tmatrix3x3, matrix);
        if !ok {
          return Err("RangeError: offset is out of bounds");
        }
        Swaps3(tmatrix3x3);
        return Ok(tmatrix3x3);
      } else if size == 4 {
        var ok := SetFromStart(tmatrix4x4, matrix);
        if !ok {
          return Err("RangeError: offset is out of bounds");
        }
        Swaps4(tmatrix4x4);
        return Ok(tmatrix4x4);
      } else {
        return Err("Only 3x3 or 4x4 matrices are supported.");
      }
    }

    /** uniformMatrix3fv as written: the transpose goes through the 4-by-4 buffer. */
    method UniformMatrix3fvAsWritten(fa: seq<real>, transpose: bool) returns (upload: seq<real>)
      requires Valid()
      modifies tmatrix3x3, tmatrix4x4
      ensures Valid()
      ensures upload == Upload3AsWritten(fa, transpose, old(tmatrix4x4[..]))
    {
      var m := First9(fa);
      upload := m;
      if transpose {
        var r := TransposeMatrix(m, 4);
        upload := r.value[..];
      }
    }

    /** uniformMatrix3fv with the transpose done at size 3, which the rest of the model uses. */
    method UniformMatrix3fv(fa: seq<real>, transpose: bool) returns (upload: seq<real>)
      requires Valid()
      modifies tmatrix3x3, tmatrix4x4
      ensures Valid()
      ensures upload == Upload3(fa, transpose, old(tmatrix3x3[..]))
    {
      var m := First9(fa);
      upload := m;
      if transpose {
        var r := TransposeMatrix(m, 3);
        upload := r.value[..];
      }
    }

    /** uniformMatrix4fv: a 4-by-4 matrix is uploaded as its transpose when asked; one longer than 16 entries throws. */
    method UniformMatrix4fv(fa: seq<real>, transpose: bool) returns (upload: Result<seq<real>, string>)
      requires Valid()
      modifies tmatrix3x3, tmatrix4x4
      ensures Valid()
      ensures !transpose ==> upload == Ok(fa)
      ensures transpose && |fa| == 16 ==> upload == Ok(Transpose(fa, 4))
      ensures transpose && |fa| > 16 ==> upload.Err?
      ensures transpose && |fa| < 16 ==> upload == Ok(Transpose(SetAtStart(old(tmatrix4x4[..]), fa), 4))
    {
      if !transpose {
        return Ok(fa);
      }
      var r := TransposeMatrix(fa, 4);
      if r.Err? {
        return Err(r.error);
      }
      if |fa| == 16 {
        var b := SetAtStart(old(tmatrix4x4[..]), fa);
        assert b == b[..16] == fa;
      }
      return Ok(r.value[..]);
    }
  }

  /** A context handle's cached surface size and its canvas. */
  class Context {
    var width: int
    var height: int
    var canvasWidth: int
    var canvasHeight: int
    var viewport: (int, int)
    /** How many times the canvas was resized, which clears it. */
    var resizes: nat

    constructor ()
      ensures width == 0 && height == 0 && resizes == 0
    {
      width := 0;
      height := 0;
      canvasWidth := 300;
      canvasHeight := 150;
      viewport := (300, 150);
      resizes := 0;
    }

    /** setSurface: the canvas, viewport and cached size change only when the size differs from the cached one. */
    method SetSurface(w: int, h: int)
      modifies this
      ensures width == w && height == h
      ensures (w != old(width) || h != old(height)) ==>
                canvasWidth == w && canvasHeight == h && viewport == (w, h) && resizes == old(resizes) + 1
      ensures (w == old(width) && h == old(height)) ==>
                canvasWidth == old(canvasWidth) && canvasHeight == old(canvasHeight) && viewport == old(viewport) && resizes == old(resizes)
    {
      if w != width || h != height {
        canvasWidth := w;
        canvasHeight := h;
        viewport := (w, h);
        resizes := resizes + 1;
        width := w;
        height := h;
      }
    }
  }
}
