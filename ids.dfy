/** Cluster ids: the origin array index and the zoom packed into one JavaScript number.
    `<<` and `>>` in JavaScript act on 32-bit signed integers, `%` keeps the sign of
    its dividend; all three are written out here. */
module ClusterIds {

  const TwoTo31: int := 0x8000_0000
  const TwoTo32: int := 0x1_0000_0000

  /** ToInt32: wrap an integer into the signed 32-bit range. */
  function Wrap32(v: int): (r: int)
    ensures -TwoTo31 <= r < TwoTo31
    ensures (r - v) % TwoTo32 == 0
    ensures -TwoTo31 <= v < TwoTo31 ==> r == v
  {
    var m := v % TwoTo32;
    if m >= TwoTo31 then m - TwoTo32 else m
  }

  /** `i << 5` for an integer i. */
  function Shl5(i: int): int {
    Wrap32(i * 32)
  }

  /** `id >> 5`: arithmetic shift, i.e. floor division of the wrapped value. */
  function Sar5(id: int): int {
    Wrap32(id) / 32
  }

  /** JavaScript's `a % b` for b > 0: the remainder takes the sign of a. */
  function JsRem(a: int, b: int): (r: int)
    requires b > 0
    ensures -b < r < b
    ensures a >= 0 ==> 0 <= r && r == a % b
    ensures a < 0 ==> r <= 0
  {
    if a >= 0 then a % b else -((-a) % b)
  }

  /** The id a cluster gets when it is formed at array index i while clustering `zoom`:
      `(i << 5) + (zoom + 1)`. */
  function EncodeId(i: int, zoom: int): int {
    Shl5(i) + (zoom + 1)
  }

  /** `clusterId >> 5`, the array index the cluster originated at. */
  function OriginIndex(id: int): int {
    Sar5(id)
  }

  /** `clusterId % 32`, the zoom whose tree holds the cluster's children. */
  function OriginZoom(id: int): int {
    JsRem(id, 32)
  }

  /** Round trip: while i * 32 + 31 fits in 31 bits the id decodes to its index and zoom. */
  lemma IdRoundTrip(i: int, zoom: int)
    requires 0 <= i < TwoTo31 / 32
    requires 0 <= zoom + 1 < 32
    ensures OriginIndex(EncodeId(i, zoom)) == i
    ensures OriginZoom(EncodeId(i, zoom)) == zoom + 1
  {
    assert Shl5(i) == i * 32;
    var id := i * 32 + (zoom + 1);
    assert 0 <= id < TwoTo31;
    assert Wrap32(id) == id;
    assert id / 32 == i;
    assert id % 32 == zoom + 1;
  }

  /** The bound of IdRoundTrip is tight: at index 2^26 the shift overflows into the
      sign bit and neither half decodes. */
  lemma IdOverflowAt2To26()
    ensures OriginIndex(EncodeId(TwoTo31 / 32, 0)) != TwoTo31 / 32
    ensures OriginZoom(EncodeId(TwoTo31 / 32, 0)) < 0
  {
    assert Shl5(TwoTo31 / 32) == -TwoTo31;
    assert EncodeId(TwoTo31 / 32, 0) == -TwoTo31 + 1;
  }

  /** Whatever the index, the low bits of a formed id name zoom + 1 or a negative zoom
      that no tree is stored at. */
  lemma OriginZoomOfEncoded(i: int, zoom: int)
    requires i >= 0
    requires 0 <= zoom <= 30
    ensures OriginZoom(EncodeId(i, zoom)) == zoom + 1 || OriginZoom(EncodeId(i, zoom)) < 0
  {
    var m := (i * 32) % TwoTo32;
    assert m == (i % (TwoTo32 / 32)) * 32;
    var w := Wrap32(i * 32);
    var q := if m >= TwoTo31 then i % (TwoTo32 / 32) - TwoTo32 / 32 else i % (TwoTo32 / 32);
    assert w == q * 32;
    var id := q * 32 + (zoom + 1);
    if id >= 0 {
      assert q >= 0;
      assert id % 32 == zoom + 1;
    }
  }
}
