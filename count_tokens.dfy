/**
 * The token counts of a CountTokens answer. TotalTokens and TokenCount are two names for
 * one stored count; the cached-content count is stored separately. Every setter clamps
 * its 32-bit argument to the range [0, Int32.MaxValue].
 */
module TokenCounts {

  const Int32MaxValue: int := 0x7fff_ffff

  /** A .NET int: a signed 32-bit integer. */
  newtype int32 = x: int | -0x8000_0000 <= x <= 0x7fff_ffff

  /**
   * The clamp of the setters: negative values become 0 and every non-negative value is
   * kept, Int32.MaxValue included (the upper bound of the clamp is never below its argument).
   */
  function Clamp(value: int32): (r: int32)
    ensures r >= 0
    ensures value < 0 ==> r == 0
    ensures value >= 0 ==> r == value
  {
    if value < 0 then 0 else if value as int < Int32MaxValue then value else Int32MaxValue as int32
  }

  /** Storing a count read back from a setter changes nothing. */
  lemma ClampIsIdempotent(value: int32)
    ensures Clamp(Clamp(value)) == Clamp(value)
  {
  }

  class CountTokensResponse {
    var totalTokens: int32
    var totalCachedTokens: int32
    /** A plain auto-property: stored as given. */
    var TotalBillableCharacters: int32

    /** Both stored counts are never negative. */
    ghost predicate Valid()
      reads this
    {
      totalTokens >= 0 && totalCachedTokens >= 0
    }

    /** All counts start at 0. */
    constructor ()
      ensures Valid()
      ensures totalTokens == 0 && totalCachedTokens == 0 && TotalBillableCharacters == 0
    {
      totalTokens, totalCachedTokens, TotalBillableCharacters := 0, 0, 0;
    }

    function TotalTokens(): int32
      reads this
    {
      totalTokens
    }

    /** The second getter over the same stored count. */
    function TokenCount(): int32
      reads this
    {
      totalTokens
    }

    function CachedContentTokenCount(): int32
      reads this
    {
      totalCachedTokens
    }

    /** Stores the clamped value; it reads back through both TotalTokens and TokenCount. */
    method SetTotalTokens(value: int32)
      requires Valid()
      modifies this
      ensures Valid()
      ensures TotalTokens() == Clamp(value) && TokenCount() == Clamp(value)
      ensures CachedContentTokenCount() == old(CachedContentTokenCount())
      ensures TotalBillableCharacters == old(TotalBillableCharacters)
    {
      totalTokens := Clamp(value);
    }

    /** The same store as SetTotalTokens under the second name. */
    method SetTokenCount(value: int32)
      requires Valid()
      modifies this
      ensures Valid()
      ensures TotalTokens() == Clamp(value) && TokenCount() == Clamp(value)
      ensures CachedContentTokenCount() == old(CachedContentTokenCount())
      ensures TotalBillableCharacters == old(TotalBillableCharacters)
    {
      totalTokens := Clamp(value);
    }

    /** Stores the clamped cached-content count and leaves the total alone. */
    method SetCachedContentTokenCount(value: int32)
      requires Valid()
      modifies this
      ensures Valid()
      ensures CachedContentTokenCount() == Clamp(value)
      ensures TotalTokens() == old(TotalTokens()) && TokenCount() == old(TokenCount())
      ensures TotalBillableCharacters == old(TotalBillableCharacters)
    {
      totalCachedTokens := Clamp(value);
    }
  }

  /**
   * A value set through TokenCount reads back through TotalTokens, a later cached-content
   * set does not disturb it, and the largest int is stored unchanged.
   */
  method SharedCountScenario(response: CountTokensResponse) returns (total: int32, count: int32, cached: int32)
    requires response.Valid()
    modifies response
    ensures total == count == Int32MaxValue as int32
    ensures cached == 0
  {
    response.SetTokenCount(Int32MaxValue as int32);
    response.SetCachedContentTokenCount(-5);
    total, count, cached := response.TotalTokens(), response.TokenCount(), response.CachedContentTokenCount();
  }
}
