/** The direction setting of the forward one-dimensional FFT image filter
    (itk::Forward1DFFTImageFilter): the axis along which the transform runs,
    kept within [0, ImageDimension-1]. */
module Forward1DFFT {
  import opened ItkTypes

  /** Clamping as ITK's set-clamp macro does it: below the lower bound gives
      the lower bound, else above the upper bound gives the upper bound. */
  function Clamp(v: int, lo: int, hi: int): (r: int)
    ensures lo <= hi ==> lo <= r <= hi
    ensures lo <= v <= hi ==> r == v
  {
    if v < lo then lo else if v > hi then hi else v
  }

  /** The direction actually stored when d is requested on an image of the
      given dimension. */
  function ClampDirection(d: u32, imageDimension: nat): (r: u32)
    requires 1 <= imageDimension < U32_LIMIT
    ensures r as int <= imageDimension - 1
    ensures d as int <= imageDimension - 1 ==> r == d
    ensures d as int > imageDimension - 1 ==> r as int == imageDimension - 1
  {
    Clamp(d as int, 0, imageDimension - 1) as u32
  }

  /** Clamping an already clamped direction changes nothing. */
  lemma ClampDirectionIdempotent(d: u32, imageDimension: nat)
    requires 1 <= imageDimension < U32_LIMIT
    ensures ClampDirection(ClampDirection(d, imageDimension), imageDimension) ==
            ClampDirection(d, imageDimension)
  {
  }

  class Forward1DFFTImageFilter {
    /** ImageDimension of the input image. */
    const imageDimension: nat
    /** The axis along which the FFT is applied. */
    var direction: u32
    /** Modification time. */
    var mtime: nat

    ghost predicate Valid()
      reads this
    {
      1 <= imageDimension < U32_LIMIT && direction as int <= imageDimension - 1
    }

    constructor (dimension: nat)
      requires 1 <= dimension < U32_LIMIT
      ensures Valid() && imageDimension == dimension
    {
      imageDimension := dimension;
      direction := 0;
      mtime := 0;
    }

    /** Marks the filter as changed. */
    method Modified()
      modifies this`mtime
      ensures mtime == old(mtime) + 1
    {
      mtime := mtime + 1;
    }

    /** Stores d clamped into [0, ImageDimension-1]; only a change of the
        stored value marks the filter modified, so setting the stored
        direction again changes nothing. */
    method SetDirection(d: u32)
      requires Valid()
      modifies this
      ensures Valid() && direction == ClampDirection(d, imageDimension)
      ensures mtime == if direction != old(direction) then old(mtime) + 1 else old(mtime)
      ensures d == old(direction) ==> direction == old(direction) && mtime == old(mtime)
    {
      var clamped := Clamp(d as int, 0, imageDimension - 1) as u32;
      if direction != clamped {
        direction := clamped;
        Modified();
      }
    }

    method GetDirection() returns (d: u32)
      requires Valid()
      ensures d == direction && d as int <= imageDimension - 1
    {
      d := direction;
    }
  }

  /** Setting a direction twice leaves the filter as setting it once. */
  method SetDirectionTwice(filter: Forward1DFFTImageFilter, d: u32)
    requires filter.Valid()
    modifies filter
    ensures filter.Valid() && filter.direction == ClampDirection(d, filter.imageDimension)
    ensures filter.mtime == if ClampDirection(d, filter.imageDimension) != old(filter.direction)
                            then old(filter.mtime) + 1 else old(filter.mtime)
  {
    filter.SetDirection(d);
    ghost var once := filter.mtime;
    filter.SetDirection(d);
    assert filter.mtime == once;
  }
}
