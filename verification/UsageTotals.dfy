/** Token usage and cost, as they are added up per key, month, model and account. */
module UsageTotals {
  import opened Wrappers

  datatype Usage = Usage(input: int, cached: int, cacheWrite: int, output: int, reasoning: int) {
    function Plus(other: Usage): Usage {
      Usage(input + other.input, cached + other.cached, cacheWrite + other.cacheWrite, output + other.output,
          reasoning + other.reasoning)
    }
  }

  const NO_USAGE := Usage(0, 0, 0, 0, 0)

  datatype Cost = Cost(nanoDollars: int, unpriced: int) {
    function Add(cost: Option<int>): Cost {
      if cost.Some? then Cost(nanoDollars + cost.value, unpriced) else Cost(nanoDollars, unpriced + 1)
    }
  }

  const NO_COST := Cost(0, 0)

  function CostOf(costs: map<string, Cost>, name: string): Cost {
    if name in costs then costs[name] else NO_COST
  }
}
