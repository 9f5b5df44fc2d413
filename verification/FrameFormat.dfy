/**
 * The image-size arithmetic of the fake capture driver (lkml/v4l2/vid4linux.c).
 *
 * The driver computes the size of a frame in three places, with 32-bit unsigned
 * arithmetic: `buf_prepare` multiplies width, height and pixel size; `vidioc_g_fmt_vid_cap`
 * goes through a line length obtained by shifting away three bits; `queue_setup` uses a
 * literal product.
 */
module FrameFormat {
  import opened Arithmetic

  const U29: int := 0x2000_0000

  /** Unsigned 32-bit multiplication, with its wrap-around. */
  function Mul32(a: nat, b: nat): (r: nat)
    ensures r < U32
  {
    (a * b) % U32
  }

  /** `size` in buf_prepare: what a plane must hold and what becomes its payload. */
  function PayloadSize(width: nat, height: nat, pixelsize: nat): nat {
    Mul32(Mul32(width, height), pixelsize)
  }

  /** `bytesperline` in vidioc_g_fmt_vid_cap. */
  function BytesPerLine(width: nat, depth: nat): nat {
    Mul32(width, depth) / 8
  }

  /** `sizeimage` in vidioc_g_fmt_vid_cap: the length a user-pointer client allocates. */
  function SizeImage(width: nat, height: nat, depth: nat): nat {
    Mul32(height, BytesPerLine(width, depth))
  }

  // The values stored by v4l2_init and the plane size given by queue_setup.
  const WIDTH: nat := 640
  const HEIGHT: nat := 480
  const PIXELSIZE: nat := 3
  const DEPTH: nat := 24
  const QUEUE_SETUP_SIZE: nat := 640 * 480 * 3

  /** Bytes the frame thread copies into every buffer. */
  const COPY_BYTES: nat := 128

  lemma DropMultiple(m: int, n: int)
    ensures (m + n * U32) % U32 == m % U32
  {
  }

  lemma Distribute(q: int, r: int, b: int)
    ensures (q * U32 + r) * b == r * b + (q * b) * U32
  {
  }

  /** Multiplying may be reduced modulo 2^32 first. */
  lemma ModMul(a: int, b: int)
    ensures ((a % U32) * b) % U32 == (a * b) % U32
  {
    var q, r := a / U32, a % U32;
    Distribute(q, r, b);
    DropMultiple(r * b, q * b);
    assert a == q * U32 + r;
  }

  lemma EightfoldResidue(wp: nat)
    ensures (8 * wp) % U32 == 8 * (wp % U29)
  {
    var r, q := wp % U29, wp / U29;
    assert 8 * wp == 8 * r + q * U32;
  }

  /** Eight bits a byte: the shifted line length is the byte count modulo 2^29. */
  lemma LineLength(width: nat, pixelsize: nat)
    ensures BytesPerLine(width, 8 * pixelsize) == (width * pixelsize) % U29
  {
    var wp := width * pixelsize;
    Reassociate(width, 0, pixelsize);
    EightfoldResidue(wp);
  }

  /** Multiples of 2^29 vanish modulo 2^32 exactly when the factor is a multiple of eight. */
  lemma EighthsVanish(k: nat)
    ensures (k * U29) % U32 == 0 <==> k % 8 == 0
  {
  }

  /** Adding `a` keeps a residue modulo 2^32 exactly when `a` is a multiple of 2^32. */
  lemma SameResidue(a: nat, b: nat)
    ensures (a + b) % U32 == b % U32 <==> a % U32 == 0
  {
  }

  /** The payload size, split into the bytes the line length keeps and those it drops. */
  lemma PayloadSplit(width: nat, height: nat, pixelsize: nat)
    ensures var q, r := width * pixelsize / U29, width * pixelsize % U29;
            PayloadSize(width, height, pixelsize) == ((height * q) * U29 + height * r) % U32
  {
    var wp := width * pixelsize;
    var q, r := wp / U29, wp % U29;
    ModMul(width * height, pixelsize);
    calc {
      width * height * pixelsize;
      height * wp;
      { assert wp == q * U29 + r; }
      height * (q * U29 + r);
      (height * q) * U29 + height * r;
    }
  }

  /**
   * The two size formulas give the same number exactly when no multiple of 2^29 bytes of
   * line length, scaled by the height, is lost by the shift.
   */
  lemma SizeFormulasAgreeIff(width: nat, height: nat, pixelsize: nat)
    ensures SizeImage(width, height, 8 * pixelsize) == PayloadSize(width, height, pixelsize)
       <==> (height * (width * pixelsize / U29)) % 8 == 0
  {
    var q, r := width * pixelsize / U29, width * pixelsize % U29;
    LineLength(width, pixelsize);
    PayloadSplit(width, height, pixelsize);
    SameResidue((height * q) * U29, height * r);
    EighthsVanish(height * q);
  }

  /** Without wrap-around of the line and of the total, both formulas are the plain product. */
  lemma SizeFormulasWithoutWrap(width: nat, height: nat, pixelsize: nat)
    requires width * (8 * pixelsize) < U32
    requires width * height * pixelsize < U32
    ensures SizeImage(width, height, 8 * pixelsize) == width * height * pixelsize
    ensures PayloadSize(width, height, pixelsize) == width * height * pixelsize
  {
    Reassociate(width, height, pixelsize);
    LineLength(width, pixelsize);
    assert (width * pixelsize) % U29 == width * pixelsize;
    ModMul(width * height, pixelsize);
  }

  lemma Reassociate(width: nat, height: nat, pixelsize: nat)
    ensures width * (8 * pixelsize) == 8 * (width * pixelsize)
    ensures width * height * pixelsize == height * (width * pixelsize)
  {
  }

  /**
   * The condition can fail, for a format the driver cannot hold: the client would allocate nothing
   * while buf_prepare asks for 2^29 bytes.
   */
  lemma SizeFormulasCanDisagree()
    ensures SizeImage(U29, 1, 8) == 0
    ensures PayloadSize(U29, 1, 1) == U29
  {
  }

  /** The format part of struct fake_vid_device with the two format ioctls. */
  class DeviceFormat {
    var width: nat
    var height: nat
    var pixelsize: nat
    var depth: nat

    ghost predicate Valid()
      reads this
    {
      width == WIDTH && height == HEIGHT && pixelsize == PIXELSIZE && depth == DEPTH
    }

    /** v4l2_init, lines 386-389. */
    constructor ()
      ensures Valid() && width == 640 && height == 480 && pixelsize == 3 && depth == 24
    {
      width, height, pixelsize, depth := 640, 480, 3, 24;
    }

    /** vidioc_g_fmt_vid_cap: the image size reported is the one every other formula uses. */
    method GetFormat() returns (w: nat, h: nat, bytesperline: nat, sizeimage: nat)
      requires Valid()
      ensures w == 640 && h == 480 && bytesperline == 1920 && sizeimage == 921_600
      ensures sizeimage == QUEUE_SETUP_SIZE == PayloadSize(width, height, pixelsize)
      ensures bytesperline * height == sizeimage
    {
      w, h := width, height;
      bytesperline := BytesPerLine(w, depth);
      sizeimage := Mul32(h, bytesperline);
    }

    /** vidioc_s_fmt_vid_cap: always refuses, whatever is asked, and stores nothing. */
    method SetFormat(w: nat, h: nat) returns (ret: int)
      requires Valid()
      ensures ret == -1 && Valid()
    {
      ret := -1;
    }

    /**
     * buf_prepare: refuses a plane shorter than the image; otherwise records the payload.
     * An accepted plane holds the payload and the bytes the frame thread copies.
     */
    method BufPrepare(planeSize: nat) returns (ret: int, payload: nat)
      requires Valid()
      ensures ret == 0 <==> planeSize >= QUEUE_SETUP_SIZE
      ensures ret != 0 ==> ret == -12 && payload == 0
      ensures ret == 0 ==> payload == QUEUE_SETUP_SIZE == 921_600 && COPY_BYTES == 128 <= payload <= planeSize
    {
      var size := PayloadSize(width, height, pixelsize);
      if planeSize < size {
        ret, payload := -12, 0;
      } else {
        ret, payload := 0, size;
      }
    }
  }
}
