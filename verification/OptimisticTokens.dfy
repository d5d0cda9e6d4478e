/** The optimistic-concurrency token of content rows (src/content-authoring/optimistic-concurrency.ts:15-17). */
module OptimisticTokens {

  /** The token after a successful write that quoted `expected`, whatever the clock says. */
  function NextToken(expected: int, clock: int): (t: int)
    ensures t > expected && t >= clock
  {
    if clock > expected + 1 then clock else expected + 1
  }
}
