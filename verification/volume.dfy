/**
 * The voxel volume: a box in world space holding a three-dimensional grid of
 * densities, stored flat with x varying fastest and z slowest. A new volume has
 * no voxel buffer; resizing allocates one and zero-fills it, and voxel reads and
 * writes outside the grid are ignored.
 */
module Volumes {

  import opened Geometry
  import opened Optional

  // ---------------------------------------------------------------------------
  // The flat voxel index
  // ---------------------------------------------------------------------------

  /** The position of voxel (x, y, z) in a grid xres voxels wide and yres high. */
  function VoxelIndex(x: int, y: int, z: int, xres: int, yres: int): int
  {
    z * xres * yres + y * xres + x
  }

  /** A voxel inside an xres by yres by zres grid. */
  predicate InGrid(x: int, y: int, z: int, xres: int, yres: int, zres: int)
  {
    0 <= x < xres && 0 <= y < yres && 0 <= z < zres
  }

  lemma MulMono(a: int, b: int, n: int)
    requires a <= b && 0 <= n
    ensures a * n <= b * n
  {
    assert b * n == a * n + (b - a) * n;
  }

  /** The index of a voxel inside the grid lies inside the buffer of xres*yres*zres values. */
  lemma IndexInRange(x: int, y: int, z: int, xres: int, yres: int, zres: int)
    requires InGrid(x, y, z, xres, yres, zres)
    ensures 0 <= VoxelIndex(x, y, z, xres, yres) < xres * yres * zres
  {
    var slice := xres * yres;
    MulMono(0, y, xres);
    MulMono(y + 1, yres, xres);
    assert y * xres + x < slice;
    MulMono(0, z, slice);
    MulMono(z + 1, zres, slice);
    assert z * xres * yres == z * slice;
    assert xres * yres * zres == zres * slice;
  }

  /** The voxel a buffer index belongs to, in the order x, y, z. */
  function VoxelAt(i: int, xres: int, yres: int): (v: (int, int, int))
    requires xres >= 1 && yres >= 1
  {
    (i % xres, (i / xres) % yres, i / (xres * yres))
  }

  /** The flat index regrouped: by rows of xres voxels, and by slices of xres*yres voxels. */
  lemma IndexLayout(x: int, y: int, z: int, xres: int, yres: int)
    ensures VoxelIndex(x, y, z, xres, yres) == (z * yres + y) * xres + x
    ensures VoxelIndex(x, y, z, xres, yres) == z * (xres * yres) + (y * xres + x)
  {
    assert z * xres * yres == (z * yres) * xres;
    assert (z * yres + y) * xres == (z * yres) * xres + y * xres;
    assert z * xres * yres == z * (xres * yres);
  }

  /** Reading the index back gives the voxel: the flat layout is one to one. */
  lemma IndexDecodes(x: int, y: int, z: int, xres: int, yres: int)
    requires 0 <= x < xres && 0 <= y < yres
    ensures VoxelAt(VoxelIndex(x, y, z, xres, yres), xres, yres) == (x, y, z)
  {
    var i := VoxelIndex(x, y, z, xres, yres);
    IndexLayout(x, y, z, xres, yres);
    DivModUnique(i, xres, z * yres + y, x);
    DivModUnique(z * yres + y, yres, z, y);
    SliceOffset(x, y, xres, yres);
    DivModUnique(i, xres * yres, z, y * xres + x);
  }

  /** Within a slice, the offset of row y, column x is below xres*yres. */
  lemma SliceOffset(x: int, y: int, xres: int, yres: int)
    requires 0 <= x < xres && 0 <= y < yres
    ensures 0 <= y * xres + x < xres * yres
  {
    MulMono(0, y, xres);
    MulMono(y + 1, yres, xres);
  }

  /** Every index of the buffer is the index of the voxel it decodes to, and that voxel is in the grid. */
  lemma IndexCovers(i: int, xres: int, yres: int, zres: int)
    requires xres >= 1 && yres >= 1 && 0 <= i < xres * yres * zres
    ensures var (x, y, z) := VoxelAt(i, xres, yres);
      InGrid(x, y, z, xres, yres, zres) && VoxelIndex(x, y, z, xres, yres) == i
  {
    var x := i % xres;
    var q := i / xres;
    var y := q % yres;
    var z := q / yres;
    assert i == q * xres + x;
    assert q == z * yres + y;
    IndexLayout(x, y, z, xres, yres);
    assert VoxelIndex(x, y, z, xres, yres) == i;
    SliceOffset(x, y, xres, yres);
    DivModUnique(i, xres * yres, z, y * xres + x);
    assert 0 <= z by {
      if z < 0 {
        MulMono(z, -1, xres * yres);
        assert false;
      }
    }
    assert z < zres by {
      if z >= zres {
        MulMono(zres, z, xres * yres);
        assert false;
      }
    }
  }

  /** Distinct voxels of the grid have distinct indices. */
  lemma IndexInjective(x: int, y: int, z: int, x': int, y': int, z': int, xres: int, yres: int)
    requires 0 <= x < xres && 0 <= y < yres && 0 <= x' < xres && 0 <= y' < yres
    requires VoxelIndex(x, y, z, xres, yres) == VoxelIndex(x', y', z', xres, yres)
    ensures x == x' && y == y' && z == z'
  {
    IndexDecodes(x, y, z, xres, yres);
    IndexDecodes(x', y', z', xres, yres);
  }

  /** Division and remainder are unique: i == q*n + r with 0 <= r < n fixes both. */
  lemma DivModUnique(i: int, n: int, q: int, r: int)
    requires 0 <= r < n && i == q * n + r
    ensures i / n == q && i % n == r
  {
    var q0 := i / n;
    var r0 := i % n;
    assert i == q0 * n + r0;
    if q0 > q {
      MulMono(q + 1, q0, n);
      assert false;
    }
    if q0 < q {
      MulMono(q0 + 1, q, n);
      assert false;
    }
  }

  // ---------------------------------------------------------------------------
  // The voxel buffer
  // ---------------------------------------------------------------------------

  class VoxelBuffer {
    /** The densities, x fastest, then y, then z. */
    var data: array<real>
    var xres: int
    var yres: int
    var zres: int

    /** The buffer holds exactly one value per voxel of its resolution. */
    predicate Valid()
      reads this
    {
      0 <= xres && 0 <= yres && 0 <= zres && data.Length == xres * yres * zres
    }

    /** new_voxel_buffer: no data and a resolution of 0 on every axis. */
    constructor ()
      ensures Valid() && xres == 0 && yres == 0 && zres == 0 && fresh(data)
    {
      data := new real[0];
      xres, yres, zres := 0, 0, 0;
    }

    /** The position of an in-grid voxel in the data array. */
    function Slot(x: int, y: int, z: int): (i: nat)
      requires Valid() && InGrid(x, y, z, xres, yres, zres)
      reads this
      ensures i < data.Length && i == VoxelIndex(x, y, z, xres, yres)
    {
      IndexInRange(x, y, z, xres, yres, zres);
      VoxelIndex(x, y, z, xres, yres)
    }

    /** get_buffer_value: the voxel's value, or 0 outside the grid. */
    function Value(x: int, y: int, z: int): (v: real)
      requires Valid()
      reads this, data
    {
      if InGrid(x, y, z, xres, yres, zres) then
        data[Slot(x, y, z)]
      else
        0.0
    }

    /**
     * resize_voxel_buffer: a buffer of xres*yres*zres values and the new
     * resolution. The values themselves are left to the fill that follows.
     */
    method Resize(xres: int, yres: int, zres: int)
      requires xres >= 1 && yres >= 1 && zres >= 1
      modifies this
      ensures Valid() && this.xres == xres && this.yres == yres && this.zres == zres && fresh(data)
    {
      MulMono(0, yres, xres);
      MulMono(0, zres, xres * yres);
      data := new real[xres * yres * zres];
      this.xres, this.yres, this.zres := xres, yres, zres;
    }

    /** fill_voxel_buffer: every one of the xres*yres*zres values becomes value. */
    method Fill(value: real)
      requires Valid()
      modifies data
      ensures Valid()
      ensures forall i :: 0 <= i < data.Length ==> data[i] == value
      ensures forall x, y, z :: InGrid(x, y, z, xres, yres, zres) ==> Value(x, y, z) == value
    {
      var n := xres * yres * zres;
      var i := 0;
      while i < n
        invariant 0 <= i <= n == data.Length
        invariant forall j :: 0 <= j < i ==> data[j] == value
      {
        data[i] := value;
        i := i + 1;
      }
      forall x, y, z | InGrid(x, y, z, xres, yres, zres)
        ensures Value(x, y, z) == value
      {
        IndexInRange(x, y, z, xres, yres, zres);
      }
    }

    /**
     * set_buffer_value: writes the voxel when it is inside the grid; otherwise
     * nothing changes. Reading it back gives the value, and every other voxel
     * keeps its value.
     */
    method SetValue(x: int, y: int, z: int, value: real)
      requires Valid()
      modifies data
      ensures Valid()
      ensures InGrid(x, y, z, xres, yres, zres) ==> data[..] == old(data[..])[Slot(x, y, z) := value]
      ensures !InGrid(x, y, z, xres, yres, zres) ==> data[..] == old(data[..])
      ensures InGrid(x, y, z, xres, yres, zres) ==> Value(x, y, z) == value
      ensures forall x', y', z' :: (x', y', z') != (x, y, z) ==> Value(x', y', z') == old(Value(x', y', z'))
    {
      if x < 0 || xres <= x {
        return;
      }
      if y < 0 || yres <= y {
        return;
      }
      if z < 0 || zres <= z {
        return;
      }
      IndexInRange(x, y, z, xres, yres, zres);
      var index := z * xres * yres + y * xres + x;
      data[index] := value;
      forall x', y', z' | (x', y', z') != (x, y, z)
        ensures Value(x', y', z') == old(Value(x', y', z'))
      {
        if InGrid(x', y', z', xres, yres, zres) {
          IndexInRange(x', y', z', xres, yres, zres);
          if VoxelIndex(x', y', z', xres, yres) == index {
            IndexInjective(x, y, z, x', y', z', xres, yres);
          }
        }
      }
    }
  }

  // ---------------------------------------------------------------------------
  // The volume
  // ---------------------------------------------------------------------------

  /** BOX3_XSIZE, BOX3_YSIZE and BOX3_ZSIZE: the extent of a box along each axis. */
  function Extent(b: Box): Vec3
  {
    Vec3(b.max.x - b.min.x, b.max.y - b.min.y, b.max.z - b.min.z)
  }

  class Volume {
    /** The voxels, or null before the first resize. */
    var buffer: VoxelBuffer?
    var bounds: Box
    /** The bounds' extent on each axis. */
    var size: Vec3

    predicate Valid()
      reads this, buffer
    {
      buffer != null ==> buffer.Valid()
    }

    /** VolNew: no buffer, and zero bounds and size, which make an empty volume valid. */
    constructor ()
      ensures Valid() && buffer == null && bounds == ZeroBox && size == Vec3(0.0, 0.0, 0.0)
      ensures size == Extent(bounds)
    {
      buffer := null;
      bounds := ZeroBox;
      size := Vec3(0.0, 0.0, 0.0);
    }

    /**
     * VolResize: ignored when a resolution is below 1; otherwise the volume has a
     * buffer of the new resolution with every voxel 0.
     */
    method VolResize(xres: int, yres: int, zres: int)
      requires Valid()
      modifies this, buffer
      ensures Valid() && bounds == old(bounds) && size == old(size)
      ensures xres < 1 || yres < 1 || zres < 1 ==> buffer == old(buffer) && (buffer != null ==> unchanged(buffer))
      ensures xres >= 1 && yres >= 1 && zres >= 1 ==>
        && buffer != null && fresh(buffer.data)
        && buffer.xres == xres && buffer.yres == yres && buffer.zres == zres
        && forall x, y, z :: InGrid(x, y, z, xres, yres, zres) ==> buffer.Value(x, y, z) == 0.0
    {
      if xres < 1 || yres < 1 || zres < 1 {
        return;
      }
      if buffer == null {
        buffer := new VoxelBuffer();
      }
      buffer.Resize(xres, yres, zres);
      buffer.Fill(0.0);
    }

    /** VolSetBounds: the new bounds, and their extent as the size. */
    method VolSetBounds(b: Box)
      modifies this
      ensures bounds == b && size == Extent(b) && buffer == old(buffer)
    {
      bounds := b;
      size := Vec3(b.max.x - b.min.x, b.max.y - b.min.y, b.max.z - b.min.z);
    }

    /** VolGetResolution: the buffer's resolution; the volume must have a buffer. */
    function Resolution(): (r: (int, int, int))
      requires Valid() && buffer != null
      reads this, buffer
      ensures r.0 >= 0 && r.1 >= 0 && r.2 >= 0
    {
      (buffer.xres, buffer.yres, buffer.zres)
    }

    /**
     * VolGetValue as evidently intended: the stored voxel, through
     * get_buffer_value; 0 without a buffer or outside the grid.
     */
    function GetValue(x: int, y: int, z: int): (v: real)
      requires Valid()
      reads this, buffer, if buffer != null then {buffer.data} else {}
      ensures buffer == null ==> v == 0.0
      ensures buffer != null && !InGrid(x, y, z, buffer.xres, buffer.yres, buffer.zres) ==> v == 0.0
      ensures buffer != null && InGrid(x, y, z, buffer.xres, buffer.yres, buffer.zres) ==> v == buffer.data[buffer.Slot(x, y, z)]
    {
      if buffer == null then 0.0 else buffer.Value(x, y, z)
    }

    /** VolSetValue: nothing without a buffer; otherwise set_buffer_value. */
    method VolSetValue(x: int, y: int, z: int, value: real)
      requires Valid()
      modifies if buffer != null then {buffer.data} else {}
      ensures Valid()
      ensures buffer != null && InGrid(x, y, z, buffer.xres, buffer.yres, buffer.zres) ==> GetValue(x, y, z) == value
      ensures forall x', y', z' :: (x', y', z') != (x, y, z) ==> GetValue(x', y', z') == old(GetValue(x', y', z'))
      ensures buffer == null ==> GetValue(x, y, z) == 0.0
    {
      if buffer == null {
        return;
      }
      buffer.SetValue(x, y, z, value);
    }

    /** VolGetValue as written: 0 for every voxel, whatever was stored. */
    function VolGetValue(x: int, y: int, z: int): (v: real)
      ensures v == 0.0
    {
      0.0
    }

    /**
     * VolGetSample, its guards: no hit (and no density written) when the point is
     * outside the bounds or there is no buffer; otherwise a hit with the density
     * the trilinear lookup gives at the point.
     */
    method VolGetSample(point: Vec3, lookup: Vec3 -> real) returns (hit: int, density: Option<real>)
      ensures hit == 0 || hit == 1
      ensures hit == 1 <==> ContainsPoint(bounds, point) && buffer != null
      ensures hit == 0 <==> density.None?
      ensures hit == 1 ==> density == Some(lookup(point))
    {
      if !ContainsPoint(bounds, point) {
        return 0, None;
      }
      if buffer == null {
        return 0, None;
      }
      return 1, Some(lookup(point));
    }
  }

  /**
   * VolGetValue as written does not read back what VolSetValue stored: after
   * setting an in-grid voxel of a volume with a buffer to value, the voxel holds
   * value while VolGetValue still reads 0.
   */
  method SetThenGetAsWritten(v: Volume, x: int, y: int, z: int, value: real) returns (stored: real, read: real)
    requires v.Valid() && v.buffer != null && InGrid(x, y, z, v.buffer.xres, v.buffer.yres, v.buffer.zres)
    modifies v.buffer.data
    ensures stored == value && read == 0.0
  {
    v.VolSetValue(x, y, z, value);
    stored := v.GetValue(x, y, z);
    read := v.VolGetValue(x, y, z);
  }

  /**
   * With VolGetValue reading through get_buffer_value, a voxel set inside the
   * grid reads back as the value set, and every other voxel reads as before.
   */
  method SetThenGet(v: Volume, x: int, y: int, z: int, value: real) returns (read: real)
    requires v.Valid() && v.buffer != null && InGrid(x, y, z, v.buffer.xres, v.buffer.yres, v.buffer.zres)
    modifies v.buffer.data
    ensures read == value
    ensures forall x', y', z' :: (x', y', z') != (x, y, z) ==> v.GetValue(x', y', z') == old(v.GetValue(x', y', z'))
  {
    v.VolSetValue(x, y, z, value);
    read := v.GetValue(x, y, z);
  }
}
