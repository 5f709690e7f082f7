// The thread-local forward context. Wrapped engine steps and model executions set it and restore
// it in a `finally` block; wrapped layers read it. Any call may raise, and the code around a call
// may or may not catch that.
module ForwardContext {
  import opened Options

  datatype Context = Context(step: Option<int>, forward: Option<int>, phase: Option<string>, total: Option<int>)

  // An object that hands out ids.
  datatype Source = Engine(obj: nat) | Runner(obj: nat)

  // A tree of wrapped calls. `tag` is the step id that the scheduler left on its output, if any.
  datatype Call =
    | Step(engine: nat, body: seq<Call>, catches: bool, raises: bool)
    | Execute(runner: nat, tag: Option<int>, phase: string, total: Option<int>,
              body: seq<Call>, catches: bool, raises: bool)
    | Layer(layer: nat, raises: bool)

  datatype Seen = Seen(layer: nat, context: Context)

  datatype Issued = Issued(source: Source, id: nat)

  type Counters = map<Source, nat>

  function CountOf(counters: Counters, source: Source): nat {
    if source in counters then counters[source] else 0
  }

  // ---------------------------------------------------------------- lexical scoping

  // The reference: the context is handed down the tree and never stored, so a layer sees exactly
  // what its innermost enclosing calls set.
  datatype Outcome = Outcome(counters: Counters, seen: seq<Seen>, issued: seq<Issued>, raised: bool)

  function StepContext(env: Context, id: nat): Context {
    env.(step := Some(id))
  }

  function ExecuteContext(env: Context, c: Call, id: nat): Context
    requires c.Execute?
  {
    Context(if c.tag.Some? then c.tag else env.step, Some(id), Some(c.phase), c.total)
  }

  // A call that took an id, after its body.
  function Numbered(own: Issued, body: Outcome, raises: bool): Outcome {
    Outcome(body.counters, body.seen, [own] + body.issued, body.raised || raises)
  }

  function Walk(c: Call, env: Context, counters: Counters): Outcome
    decreases c, 1
  {
    match c
    case Layer(layer, raises) => Outcome(counters, [Seen(layer, env)], [], raises)
    case Step(engine, body, catches, raises) =>
      var id := CountOf(counters, Engine(engine)) + 1;
      var o := WalkAll(body, catches, StepContext(env, id), counters[Engine(engine) := id]);
      Numbered(Issued(Engine(engine), id), o, raises)
    case Execute(runner, tag, phase, total, body, catches, raises) =>
      var id := CountOf(counters, Runner(runner)) + 1;
      var o := WalkAll(body, catches, ExecuteContext(env, c, id), counters[Runner(runner) := id]);
      Numbered(Issued(Runner(runner), id), o, raises)
  }

  // The body of a call: the calls in order, up to the first that raises unless it is caught.
  function WalkAll(cs: seq<Call>, catches: bool, env: Context, counters: Counters): Outcome
    decreases cs, 0
  {
    if cs == [] then Outcome(counters, [], [], false)
    else
      var first := Walk(cs[0], env, counters);
      if first.raised && !catches then first
      else
        var rest := WalkAll(cs[1..], catches, env, first.counters);
        Outcome(rest.counters, first.seen + rest.seen, first.issued + rest.issued, rest.raised)
  }

  lemma OneLayer(layer: nat, env: Context, counters: Counters)
    ensures WalkAll([Layer(layer, false)], false, env, counters) == Outcome(counters, [Seen(layer, env)], [], false)
  {
    assert [Layer(layer, false)][1..] == [];
    assert WalkAll([], false, env, counters) == Outcome(counters, [], [], false);
  }

  // ---------------------------------------------------------------- ids

  function IdIf(i: Issued, source: Source): seq<nat> {
    if i.source == source then [i.id] else []
  }

  // The ids that one source handed out, in order.
  function IdsOf(issued: seq<Issued>, source: Source): seq<nat> {
    if issued == [] then [] else IdsOf(issued[..|issued| - 1], source) + IdIf(issued[|issued| - 1], source)
  }

  lemma IdsOfSnoc(issued: seq<Issued>, last: Issued, source: Source)
    ensures IdsOf(issued + [last], source) == IdsOf(issued, source) + IdIf(last, source)
  {
    assert (issued + [last])[..|issued|] == issued;
  }

  lemma {:induction false} IdsOfConcat(a: seq<Issued>, b: seq<Issued>, source: Source)
    ensures IdsOf(a + b, source) == IdsOf(a, source) + IdsOf(b, source)
  {
    if b == [] {
      assert a + b == a;
    } else {
      var n := |b| - 1;
      var ab, c := a + b, b[..n];
      IdsOfConcat(a, c, source);
      assert ab[..|ab| - 1] == a + c && ab[|ab| - 1] == b[n];
      var x, y, z := IdsOf(a, source), IdsOf(c, source), IdIf(b[n], source);
      assert IdsOf(ab, source) == (x + y) + z && IdsOf(b, source) == y + z;
    }
  }

  // lo + 1, lo + 2, ..., hi
  function Consecutive(lo: nat, hi: nat): (ids: seq<nat>)
    ensures lo <= hi ==> |ids| == hi - lo
    ensures forall i :: 0 <= i < |ids| ==> ids[i] == lo + 1 + i
  {
    if hi <= lo then [] else Consecutive(lo, hi - 1) + [hi]
  }

  lemma ConsecutiveConcat(lo: nat, mid: nat, hi: nat)
    requires lo <= mid <= hi
    ensures Consecutive(lo, mid) + Consecutive(mid, hi) == Consecutive(lo, hi)
  {
  }

  // What a call hands out: nothing, or ids that continue where its counter stood.
  ghost predicate Continues(o: Outcome, counters: Counters, source: Source) {
    && CountOf(counters, source) <= CountOf(o.counters, source)
    && IdsOf(o.issued, source) == Consecutive(CountOf(counters, source), CountOf(o.counters, source))
  }

  // A call that takes an id and then runs its body.
  lemma TakeId(own: Source, counters: Counters, id: nat, body: Outcome, raises: bool, source: Source)
    requires id == CountOf(counters, own) + 1
    requires Continues(body, counters[own := id], source)
    ensures Continues(Numbered(Issued(own, id), body, raises), counters, source)
  {
    var first := Issued(own, id);
    IdsOfConcat([first], body.issued, source);
    IdsOfSnoc([], first, source);
    assert [] + [first] == [first];
    if source == own {
      assert Consecutive(id - 1, id) == [id];
      ConsecutiveConcat(id - 1, id, CountOf(body.counters, source));
    }
  }

  // Each object hands out consecutive ids over the whole tree, whatever raises.
  lemma {:induction false} IdsAreConsecutive(c: Call, env: Context, counters: Counters, source: Source)
    ensures Continues(Walk(c, env, counters), counters, source)
    decreases c, 1
  {
    var o := Walk(c, env, counters);
    match c
    case Layer(layer, raises) =>
      assert o == Outcome(counters, [Seen(layer, env)], [], raises);
      NoIds(o, source);
    case Step(engine, body, catches, raises) =>
      var own, id := Engine(engine), CountOf(counters, Engine(engine)) + 1;
      assert o == Numbered(Issued(own, id), WalkAll(body, catches, StepContext(env, id), counters[own := id]), raises);
      IdsOfNumbered(own, id, body, catches, StepContext(env, id), counters, raises, source);
    case Execute(runner, _, _, _, body, catches, raises) =>
      var own, id := Runner(runner), CountOf(counters, Runner(runner)) + 1;
      assert o == Numbered(Issued(own, id), WalkAll(body, catches, ExecuteContext(env, c, id), counters[own := id]), raises);
      IdsOfNumbered(own, id, body, catches, ExecuteContext(env, c, id), counters, raises, source);
  }

  lemma NoIds(o: Outcome, source: Source)
    requires o.issued == []
    ensures Continues(o, o.counters, source)
  {
  }

  lemma {:induction false} IdsOfNumbered(own: Source, id: nat, body: seq<Call>, catches: bool, env: Context,
                                         counters: Counters, raises: bool, source: Source)
    requires id == CountOf(counters, own) + 1
    ensures Continues(Numbered(Issued(own, id), WalkAll(body, catches, env, counters[own := id]), raises), counters, source)
    decreases body, 1
  {
    IdsOfBody(body, catches, env, counters[own := id], source);
    TakeId(own, counters, id, WalkAll(body, catches, env, counters[own := id]), raises, source);
  }

  lemma {:induction false} IdsOfBody(cs: seq<Call>, catches: bool, env: Context, counters: Counters, source: Source)
    ensures Continues(WalkAll(cs, catches, env, counters), counters, source)
    decreases cs, 0
  {
    if cs != [] {
      IdsAreConsecutive(cs[0], env, counters, source);
      var first := Walk(cs[0], env, counters);
      if !first.raised || catches {
        IdsOfBody(cs[1..], catches, env, first.counters, source);
        var rest := WalkAll(cs[1..], catches, env, first.counters);
        IdsOfConcat(first.issued, rest.issued, source);
        ConsecutiveConcat(CountOf(counters, source), CountOf(first.counters, source), CountOf(rest.counters, source));
      }
    }
  }

  // ---------------------------------------------------------------- the patched code

  // One thread: the stored context, the id counters on the objects, and what was observed.
  class Thread {
    var context: Context
    var counters: Counters
    var seen: seq<Seen>
    var issued: seq<Issued>

    constructor ()
      ensures context == Context(None, None, None, None)
      ensures counters == map[] && seen == [] && issued == []
    {
      context, counters, seen, issued := Context(None, None, None, None), map[], [], [];
    }

    method NextId(source: Source) returns (id: nat)
      modifies this`counters, this`issued
      ensures id == CountOf(old(counters), source) + 1
      ensures counters == old(counters)[source := id] && issued == old(issued) + [Issued(source, id)]
    {
      id := CountOf(counters, source) + 1;
      counters := counters[source := id];
      issued := issued + [Issued(source, id)];
    }

    method SetForwardContext(next: Context) returns (previous: Context)
      modifies this`context
      ensures context == next && previous == old(context)
    {
      previous := context;
      context := next;
    }

    method RestoreForwardContext(previous: Context)
      modifies this`context
      ensures context == previous
    {
      context := previous;
    }

    // An execute call around one layer: the layer sees the new id.
    method RunOneLayer(runner: nat, phase: string, total: Option<int>, layer: nat) returns (raised: bool)
      modifies this
      ensures context == old(context) && !raised
      ensures seen == old(seen) + [Seen(layer, Context(old(context).step, Some(CountOf(old(counters), Runner(runner)) + 1),
                                                       Some(phase), total))]
    {
      var c := Execute(runner, None, phase, total, [Layer(layer, false)], false, false);
      ghost var id := CountOf(counters, Runner(runner)) + 1;
      OneLayer(layer, Context(context.step, Some(id), Some(phase), total), counters[Runner(runner) := id]);
      raised := Run(c);
    }

    // Runs a call. The stored context is as before afterwards, and the layers below have seen
    // what lexical scoping would have shown them.
    method Run(c: Call) returns (raised: bool)
      modifies this
      ensures context == old(context)
      ensures Observed(Walk(c, old(context), old(counters)), old(seen), old(issued), raised)
      decreases c, 2
    {
      match c
      case Layer(layer, raises) =>
        seen := seen + [Seen(layer, context)];
        raised := raises;
      case Step(_, _, _, _) =>
        raised := RunStep(c);
      case Execute(_, _, _, _, _, _, _) =>
        raised := RunExecute(c);
    }

    // What a run has done is what the outcome says.
    ghost predicate Observed(o: Outcome, seen0: seq<Seen>, issued0: seq<Issued>, raised: bool)
      reads this
    {
      raised == o.raised && counters == o.counters && seen == seen0 + o.seen && issued == issued0 + o.issued
    }

    method RunStep(c: Call) returns (raised: bool)
      requires c.Step?
      modifies this
      ensures context == old(context)
      ensures Observed(Walk(c, old(context), old(counters)), old(seen), old(issued), raised)
      decreases c, 1
    {
      var id := NextId(Engine(c.engine));
      var previous := SetForwardContext(Context(Some(id), context.forward, context.phase, context.total));
      raised := RunAll(c.body, c.catches);
      raised := raised || c.raises;
      RestoreForwardContext(previous);
    }

    method RunExecute(c: Call) returns (raised: bool)
      requires c.Execute?
      modifies this
      ensures context == old(context)
      ensures Observed(Walk(c, old(context), old(counters)), old(seen), old(issued), raised)
      decreases c, 1
    {
      var id := NextId(Runner(c.runner));
      var step := if c.tag.Some? then c.tag else context.step;
      var previous := SetForwardContext(Context(step, Some(id), Some(c.phase), c.total));
      raised := RunAll(c.body, c.catches);
      raised := raised || c.raises;
      RestoreForwardContext(previous);
    }

    method RunAll(cs: seq<Call>, catches: bool) returns (raised: bool)
      modifies this
      ensures context == old(context)
      ensures Observed(WalkAll(cs, catches, old(context), old(counters)), old(seen), old(issued), raised)
      decreases cs, 0
    {
      if cs == [] {
        return false;
      }
      raised := Run(cs[0]);
      if raised && !catches {
        return;
      }
      raised := RunAll(cs[1..], catches);
    }
  }
}
