/**
 Byte and gigabyte arithmetic of the controller, in the source's 64-bit signed integers:
 truncating division, a remainder that keeps the dividend's sign, wrap-around on overflow.
 */
module Sizes {
  import opened Wrappers

  const GB := 0x4000_0000
  const TWO_63 := 0x8000_0000_0000_0000
  const TWO_64 := 0x1_0000_0000_0000_0000
  const DEFAULT_VOLUME_SIZE_GB := 10

  predicate IsInt64(x: int) {
    -TWO_63 <= x < TWO_63
  }

  function Wrap64(x: int): (r: int)
    ensures IsInt64(r)
    ensures IsInt64(x) ==> r == x
    ensures exists k :: r == x + k * TWO_64
  {
    var r := (x + TWO_63) % TWO_64 - TWO_63;
    assert r == x + -((x + TWO_63) / TWO_64) * TWO_64;
    r
  }

  /** Go's `/` for a positive divisor: rounds toward zero. */
  function TruncDiv(a: int, b: int): int
    requires b > 0
  {
    if a >= 0 then a / b else -(-a / b)
  }

  /** A CSI CapacityRange; the source accepts any pair of int64 values. */
  datatype CapacityRange = CapacityRange(required: int, limit: int)

  function GetVolSizeInBytes(range: Option<CapacityRange>): int {
    match range
    case None => DEFAULT_VOLUME_SIZE_GB * GB
    case Some(r) => if r.required == 0 then r.limit else r.required
  }

  function DesiredGB(bytes: int): int {
    var whole := TruncDiv(bytes, GB);
    if bytes - whole * GB != 0 then whole + 1 else whole
  }

  /** `int64(size) * BytesInGigabyte`, with its wrap-around. */
  function CapacityBytes(sizeGB: int): int {
    Wrap64(sizeGB * GB)
  }

  datatype Quota = Quota(gbLimit: int, gbUsage: int, countLimit: int, countUsage: int)

  /** CreateVolume's two quota checks. */
  predicate Admits(q: Quota, sizeGB: int) {
    && q.gbLimit - q.gbUsage >= sizeGB
    && q.countUsage < q.countLimit
  }

  function AvailableCapacity(q: Quota): int {
    if q.countUsage >= q.countLimit then 0 else CapacityBytes(q.gbLimit - q.gbUsage)
  }

  /** GetCapacity, statement by statement. */
  method GetCapacity(q: Quota) returns (availableBytes: int)
    ensures availableBytes == AvailableCapacity(q)
    ensures q.countUsage >= q.countLimit ==> availableBytes == 0
    ensures q.countUsage < q.countLimit && IsInt64((q.gbLimit - q.gbUsage) * GB) ==>
              availableBytes == (q.gbLimit - q.gbUsage) * GB
  {
    availableBytes := Wrap64((q.gbLimit - q.gbUsage) * GB);
    if q.countUsage >= q.countLimit {
      availableBytes := 0;
    }
  }

  /**
   The gigabytes the bytes are rounded to: up to the next whole number, but one further for a negative number
   that is not whole, which truncation has rounded up already.
   */
  predicate RoundsTo(bytes: int, gb: int) {
    if bytes >= 0 || bytes % GB == 0 then (gb - 1) * GB < bytes <= gb * GB
    else (gb - 2) * GB < bytes < (gb - 1) * GB
  }

  lemma RoundsExactly(bytes: int, gb: int)
    ensures gb == DesiredGB(bytes) <==> RoundsTo(bytes, gb)
  {
    if bytes >= 0 {
      DesiredIsCeiling(bytes, gb);
    } else {
      var q, r := -bytes / GB, -bytes % GB;
      assert bytes == -q * GB - r;
      assert bytes % GB == if r == 0 then 0 else GB - r;
      if r != 0 {
        assert DesiredGB(bytes) == 1 - q;
        assert (gb - 2) * GB < bytes < (gb - 1) * GB <==> gb == 1 - q;
      } else {
        assert DesiredGB(bytes) == -q;
        assert (gb - 1) * GB < bytes <= gb * GB <==> gb == -q;
      }
    }
  }

  /**
   The size computation shared by CreateVolume and ControllerExpandVolume: the required bytes, or the limit if
   none are required, or 10 GB without a range, rounded.
   */
  method ComputeDesiredSize(range: Option<CapacityRange>) returns (desiredSize: int)
    ensures desiredSize == DesiredGB(GetVolSizeInBytes(range))
    ensures range.None? ==> desiredSize == 10
    ensures range.Some? && range.value.required != 0 ==> RoundsTo(range.value.required, desiredSize)
    ensures range.Some? && range.value.required == 0 ==> RoundsTo(range.value.limit, desiredSize)
  {
    var bytes := DEFAULT_VOLUME_SIZE_GB * GB;
    if range.Some? {
      bytes := range.value.required;
      if bytes == 0 {
        bytes := range.value.limit;
      }
    }
    desiredSize := TruncDiv(bytes, GB);
    if bytes - desiredSize * GB != 0 {
      desiredSize := desiredSize + 1;
    }
    RoundsExactly(bytes, desiredSize);
  }

  /** A non-negative request is rounded up to the next whole gigabyte and no further. */
  lemma DesiredIsCeiling(bytes: int, gb: int)
    requires bytes >= 0
    ensures gb == DesiredGB(bytes) <==> (gb - 1) * GB < bytes <= gb * GB
  {
    var q, r := bytes / GB, bytes % GB;
    assert bytes == q * GB + r;
    if r == 0 {
      assert (gb - 1) * GB < bytes <= gb * GB <==> gb - 1 < q <= gb;
    } else {
      assert (gb - 1) * GB < bytes <= gb * GB <==> gb - 1 <= q < gb;
    }
  }

  /** Negative requests are not rejected: truncation plus the increment overshoots by up to two gigabytes. */
  lemma NegativeRequestOvershoots(bytes: int)
    requires bytes < 0
    ensures bytes <= DesiredGB(bytes) * GB < bytes + 2 * GB
    ensures DesiredGB(-1) == 1
  {
    var q, r := -bytes / GB, -bytes % GB;
    assert -bytes == q * GB + r;
  }

  /**
   The capacity a fresh create reports covers the request and exceeds it by less than one
   gigabyte exactly when the request is at most 2^63 - 2^30 bytes; above that the product wraps
   to the smallest int64.
   */
  lemma FreshCapacityExact(bytes: int)
    requires IsInt64(bytes) && bytes >= 0
    ensures bytes <= TWO_63 - GB <==> bytes <= CapacityBytes(DesiredGB(bytes)) < bytes + GB
    ensures bytes > TWO_63 - GB <==> CapacityBytes(DesiredGB(bytes)) == -TWO_63
  {
    DesiredIsCeiling(bytes, DesiredGB(bytes));
    if bytes > TWO_63 - GB {
      assert DesiredGB(bytes) == TWO_63 / GB by { DesiredIsCeiling(bytes, TWO_63 / GB); }
      assert CapacityBytes(DesiredGB(bytes)) == -TWO_63;
    } else if DesiredGB(bytes) * GB >= TWO_63 {
      assert false;
    }
  }

  /**
   limit_bytes never enters the computation when required_bytes is set: the reported capacity
   respects it exactly when some whole number of gigabytes lies between the two bounds.
   */
  lemma LimitRespectedExactly(r: CapacityRange)
    requires 0 < r.required <= r.limit && r.required <= TWO_63 - GB
    ensures CapacityBytes(DesiredGB(GetVolSizeInBytes(Some(r)))) <= r.limit
            <==> exists k :: r.required <= k * GB <= r.limit
  {
    var d := DesiredGB(r.required);
    DesiredIsCeiling(r.required, d);
    FreshCapacityExact(r.required);
    assert CapacityBytes(d) == d * GB;
    if d * GB <= r.limit {
      assert r.required <= d * GB <= r.limit;
    }
    forall k | r.required <= k * GB <= r.limit
      ensures d * GB <= r.limit
    {
      assert k >= d;
      assert d * GB <= k * GB;
    }
  }

  ghost predicate Agrees(q: Quota, bytes: int) {
    Admits(q, DesiredGB(bytes)) <==> bytes <= AvailableCapacity(q)
  }

  const TWO_33 := 0x2_0000_0000
  const TWO_34 := 0x4_0000_0000

  /**
   The count is exhausted, or the free gigabytes are below 2^33 and, when there are none, lie in the lower
   half of their residues modulo 2^34 (which every number from -2^33 to 0 does).
   */
  predicate CapacityFaithful(q: Quota) {
    var free := q.gbLimit - q.gbUsage;
    || q.countUsage >= q.countLimit
    || 0 < free < TWO_33
    || (free <= 0 && (free % TWO_34 == 0 || free % TWO_34 >= TWO_33))
  }

  /** The wrap-around of a whole number of gigabytes is one in the number of gigabytes. */
  lemma CapacityWraps(g: int)
    ensures CapacityBytes(g) == ((g + TWO_33) % TWO_34 - TWO_33) * GB
  {
    var q, m := (g + TWO_33) / TWO_34, (g + TWO_33) % TWO_34;
    assert g * GB + TWO_63 == m * GB + q * TWO_64;
    assert 0 <= m * GB < TWO_64;
    assert (g * GB + TWO_63) % TWO_64 == m * GB;
  }

  lemma NonPositiveCapacity(g: int)
    requires g <= 0
    ensures CapacityBytes(g) <= 0 <==> g % TWO_34 == 0 || g % TWO_34 >= TWO_33
  {
    CapacityWraps(g);
    var m := g % TWO_34;
    assert (g + TWO_33) % TWO_34 == if m < TWO_33 then m + TWO_33 else m - TWO_33;
  }

  /**
   GetCapacity and CreateVolume's admission agree on every positive request exactly for faithful
   quotas: exhausted count, or a number of free gigabytes whose product does not wrap the wrong way, among
   them every number from -2^33 up to, but not including, 2^33.
   */
  lemma CapacityAgreementExact(q: Quota)
    ensures CapacityFaithful(q) <==> forall bytes :: 0 < bytes < TWO_63 ==> Agrees(q, bytes)
  {
    var g := q.gbLimit - q.gbUsage;
    if g <= 0 {
      NonPositiveCapacity(g);
    }
    if CapacityFaithful(q) {
      forall bytes | 0 < bytes < TWO_63
        ensures Agrees(q, bytes)
      {
        DesiredIsCeiling(bytes, DesiredGB(bytes));
        if q.countUsage < q.countLimit && g > 0 {
          assert CapacityBytes(g) == g * GB;
          CeilingBelow(bytes, g);
        }
      }
    } else if g >= TWO_63 / GB {
      DesiredIsCeiling(TWO_63 - 1, TWO_63 / GB);
      CapacityIsWhole(g);
      assert !Agrees(q, TWO_63 - 1);
    } else {
      DesiredIsCeiling(1, 1);
      assert !Agrees(q, 1);
    }
  }

  lemma CeilingBelow(bytes: int, g: int)
    requires bytes >= 0
    ensures DesiredGB(bytes) <= g <==> bytes <= g * GB
  {
    var d := DesiredGB(bytes);
    DesiredIsCeiling(bytes, d);
    if d <= g {
      assert d * GB <= g * GB;
    } else {
      assert g * GB <= (d - 1) * GB;
    }
  }

  lemma CapacityIsWhole(g: int)
    ensures CapacityBytes(g) != TWO_63 - 1
  {
    var x := g * GB;
    var k :| CapacityBytes(g) == x + k * TWO_64;
    assert CapacityBytes(g) == (g + k * (TWO_64 / GB)) * GB;
    assert ((g + k * (TWO_64 / GB)) * GB) % GB == 0;
    assert (TWO_63 - 1) % GB == GB - 1;
  }
}
