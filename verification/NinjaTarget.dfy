// One build step of a ninja log. Times are seconds, modelled as reals: the log holds
// integral milliseconds, and rounding is not what the report is about.
module NinjaTarget {

  class Target {
    const start: real
    const end: real
    var targets: seq<string>
    var weightedDuration: real

    constructor (start: real, end: real)
      ensures this.start == start && this.end == end
      ensures targets == [] && weightedDuration == 0.0
    {
      this.start, this.end := start, end;
      targets, weightedDuration := [], 0.0;
    }

    function Duration(): real {
      end - start
    }

    method SetWeightedDuration(weightedDuration: real)
      modifies this`weightedDuration
      ensures this.weightedDuration == weightedDuration
    {
      this.weightedDuration := weightedDuration;
    }

    // The assertion that the report makes each time it reads a weighted duration.
    predicate AssertionHolds()
      reads this
    {
      weightedDuration <= Duration() + 0.000002
    }
  }
}
