/**
 * The constant-volume procedure: a plugin with two properties, the volume to
 * fill and a non-negative density, whose run sets every voxel of the volume to
 * that density.
 */
module ConstantVolume {

  import opened Volumes
  import G = Geometry

  /**
   * Every voxel of v before voxel (i, j, k) in the buffer's order (x fastest,
   * then y, then z) holds density d.
   */
  ghost predicate FilledUpTo(v: Volume, d: real, i: int, j: int, k: int)
    requires v.Valid() && v.buffer != null
    reads v, v.buffer, v.buffer.data
  {
    forall x, y, z ::
      InGrid(x, y, z, v.buffer.xres, v.buffer.yres, v.buffer.zres) && Before(x, y, z, i, j, k) ==> v.GetValue(x, y, z) == d
  }

  /** Voxel (x, y, z) comes before voxel (i, j, k) in the buffer's order. */
  predicate Before(x: int, y: int, z: int, i: int, j: int, k: int)
  {
    z < k || (z == k && (y < j || (y == j && x < i)))
  }

  /** FillWithConstant's innermost loop: row j of slice k, voxel by voxel. */
  method FillRow(v: Volume, d: real, j: int, k: int)
    requires v.Valid() && v.buffer != null && 0 <= j < v.buffer.yres && 0 <= k < v.buffer.zres
    requires FilledUpTo(v, d, 0, j, k)
    modifies v.buffer.data
    ensures v.Valid() && FilledUpTo(v, d, 0, j + 1, k)
  {
    var i := 0;
    while i < v.buffer.xres
      invariant 0 <= i <= v.buffer.xres && v.Valid()
      invariant FilledUpTo(v, d, i, j, k)
    {
      v.VolSetValue(i, j, k, d);
      i := i + 1;
    }
  }

  /** FillWithConstant's middle loop: slice k, row by row. */
  method FillSlice(v: Volume, d: real, k: int)
    requires v.Valid() && v.buffer != null && 0 <= k < v.buffer.zres
    requires FilledUpTo(v, d, 0, 0, k)
    modifies v.buffer.data
    ensures v.Valid() && FilledUpTo(v, d, 0, 0, k + 1)
  {
    var j := 0;
    while j < v.buffer.yres
      invariant 0 <= j <= v.buffer.yres && v.Valid()
      invariant FilledUpTo(v, d, 0, j, k)
    {
      FillRow(v, d, j, k);
      j := j + 1;
    }
  }

  /**
   * FillWithConstant: sets every voxel of the volume's resolution to density,
   * slice by slice, through VolSetValue, and returns 0.
   */
  method FillWithConstant(v: Volume, density: real) returns (r: int)
    requires v.Valid() && v.buffer != null
    modifies v.buffer.data
    ensures r == 0 && v.Valid()
    ensures forall x, y, z :: InGrid(x, y, z, v.buffer.xres, v.buffer.yres, v.buffer.zres) ==> v.GetValue(x, y, z) == density
  {
    var (xres, yres, zres) := v.Resolution();
    var k := 0;
    while k < zres
      invariant 0 <= k <= zres && v.Valid()
      invariant FilledUpTo(v, density, 0, 0, k)
    {
      FillSlice(v, density, k);
      k := k + 1;
    }
    return 0;
  }

  class ConstantVolumeProcedure {
    var volume: Volume?
    var density: real

    /** The density property is never negative. */
    predicate Valid()
      reads this
    {
      density >= 0.0
    }

    /** A new procedure: no volume and density 1. */
    constructor ()
      ensures Valid() && volume == null && density == 1.0
    {
      volume := null;
      density := 1.0;
    }

    /** set_volume: -1 and nothing changed for a null volume; otherwise the volume is stored and 0 returned. */
    method SetVolume(value: Volume?) returns (r: int)
      modifies this
      ensures value == null ==> r == -1 && volume == old(volume)
      ensures value != null ==> r == 0 && volume == value
      ensures density == old(density)
    {
      if value == null {
        return -1;
      }
      volume := value;
      return 0;
    }

    /** set_density: stores the value, or 0 for a negative value, and returns 0. */
    method SetDensity(value: real) returns (r: int)
      modifies this
      ensures r == 0 && Valid() && volume == old(volume)
      ensures density == G.Max(0.0, value)
      ensures value >= 0.0 ==> density == value
    {
      density := G.Max(0.0, value);
      return 0;
    }

    /** run: -1 without a volume; otherwise fills it with the density and returns the fill's result. */
    method Run() returns (err: int)
      requires volume != null ==> volume.Valid() && volume.buffer != null
      modifies if volume != null && volume.buffer != null then {volume.buffer.data} else {}
      ensures volume == null ==> err == -1
      ensures volume != null ==> err == 0 && volume.Valid()
      ensures volume != null ==> forall x, y, z ::
        InGrid(x, y, z, volume.buffer.xres, volume.buffer.yres, volume.buffer.zres) ==> volume.GetValue(x, y, z) == density
    {
      if volume == null {
        return -1;
      }
      err := FillWithConstant(volume, density);
    }
  }
}
