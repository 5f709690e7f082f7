// What a layer sees below any tree of wrapped calls, told by the path of calls that lead down to it,
// and which layers are reached at all.
module ForwardPaths {
  import opened Options
  import opened ForwardContext

  // An enclosing call and the id it was given.
  datatype Frame = Frame(call: Call, id: nat)

  // The path leads from call c down to the layer call: each frame is a call in the body of the
  // one before.
  ghost predicate LeadsTo(path: seq<Frame>, c: Call, leaf: Call)
    decreases |path|
  {
    if path == [] then c == leaf && leaf.Layer?
    else path[0].call == c && !c.Layer? && exists i :: 0 <= i < |c.body| && LeadsTo(path[1..], c.body[i], leaf)
  }

  function InnermostExecute(path: seq<Frame>): Option<Frame> {
    if path == [] then None
    else
      var n := |path| - 1;
      if path[n].call.Execute? then Some(path[n]) else InnermostExecute(path[..n])
  }

  // A step call sets the step; an execute call does if the scheduler left a tag.
  predicate SetsStep(f: Frame) {
    f.call.Step? || (f.call.Execute? && f.call.tag.Some?)
  }

  function InnermostStep(path: seq<Frame>): Option<Frame> {
    if path == [] then None
    else
      var n := |path| - 1;
      if SetsStep(path[n]) then Some(path[n]) else InnermostStep(path[..n])
  }

  // The context is that of the innermost enclosing calls, and the incoming one where there is none.
  ghost predicate Fits(ctx: Context, path: seq<Frame>, incoming: Context) {
    && (match InnermostExecute(path)
        case Some(f) =>
          f.call.Execute? && ctx.forward == Some(f.id) && ctx.phase == Some(f.call.phase) && ctx.total == f.call.total
        case None => ctx.forward == incoming.forward && ctx.phase == incoming.phase && ctx.total == incoming.total)
    && (match InnermostStep(path)
        case Some(f) => !f.call.Layer? && ctx.step == if f.call.Step? then Some(f.id) else f.call.tag
        case None => ctx.step == incoming.step)
  }

  // Every id on the path was handed out by the object of its call.
  ghost predicate IssuedOn(path: seq<Frame>, issued: seq<Issued>) {
    forall k :: 0 <= k < |path| ==>
      match path[k].call
      case Layer(_, _) => false
      case Step(engine, _, _, _) => Issued(Engine(engine), path[k].id) in issued
      case Execute(runner, _, _, _, _, _, _) => Issued(Runner(runner), path[k].id) in issued
  }

  // There is a way down to a layer call with that layer on which the context fits.
  ghost predicate Placed(s: Seen, c: Call, incoming: Context, issued: seq<Issued>) {
    exists path, leaf :: OnPath(path, leaf, s, c, incoming, issued)
  }

  ghost predicate OnPath(path: seq<Frame>, leaf: Call, s: Seen, c: Call, incoming: Context, issued: seq<Issued>) {
    leaf.Layer? && leaf.layer == s.layer && LeadsTo(path, c, leaf) && Fits(s.context, path, incoming) && IssuedOn(path, issued)
  }

  lemma {:induction false} InnermostUnder(f: Frame, path: seq<Frame>)
    ensures InnermostExecute([f] + path)
         == if InnermostExecute(path).Some? then InnermostExecute(path) else if f.call.Execute? then Some(f) else None
    ensures InnermostStep([f] + path)
         == if InnermostStep(path).Some? then InnermostStep(path) else if SetsStep(f) then Some(f) else None
  {
    if path == [] {
      assert [f] + path == [f] && [f][..0] == [];
    } else {
      var n := |path| - 1;
      InnermostUnder(f, path[..n]);
      assert ([f] + path)[..n + 1] == [f] + path[..n];
    }
  }

  // One enclosing call more: `inner` is the context it sets.
  lemma PlacedUnder(s: Seen, child: Call, inner: Context, issued: seq<Issued>, f: Frame, i: nat, outer: Context, own: Issued)
    requires Placed(s, child, inner, issued) && !f.call.Layer? && i < |f.call.body| && f.call.body[i] == child
    requires own == Issued(if f.call.Step? then Engine(f.call.engine) else Runner(f.call.runner), f.id)
    requires if f.call.Step? then inner == Context(Some(f.id), outer.forward, outer.phase, outer.total)
             else inner == Context(if f.call.tag.Some? then f.call.tag else outer.step, Some(f.id), Some(f.call.phase), f.call.total)
    ensures Placed(s, f.call, outer, [own] + issued)
  {
    var path, leaf :| OnPath(path, leaf, s, child, inner, issued);
    var path' := [f] + path;
    InnermostUnder(f, path);
    assert path'[1..] == path;
    assert LeadsTo(path', f.call, leaf);
    assert Fits(s.context, path', outer);
    forall k | 0 <= k < |path'|
      ensures match path'[k].call
              case Layer(_, _) => false
              case Step(engine, _, _, _) => Issued(Engine(engine), path'[k].id) in [own] + issued
              case Execute(runner, _, _, _, _, _, _) => Issued(Runner(runner), path'[k].id) in [own] + issued
    {
      if k > 0 {
        assert path'[k] == path[k - 1];
      }
    }
    assert OnPath(path', leaf, s, f.call, outer, [own] + issued);
  }

  lemma PlacedMore(s: Seen, c: Call, incoming: Context, issued: seq<Issued>, before: seq<Issued>, after: seq<Issued>)
    requires Placed(s, c, incoming, issued)
    ensures Placed(s, c, incoming, before + issued + after)
  {
    var path, leaf :| OnPath(path, leaf, s, c, incoming, issued);
    assert OnPath(path, leaf, s, c, incoming, before + issued + after);
  }

  // Some call of a body.
  ghost predicate PlacedIn(s: Seen, cs: seq<Call>, incoming: Context, issued: seq<Issued>) {
    exists i :: 0 <= i < |cs| && Placed(s, cs[i], incoming, issued)
  }

  // Every layer, below any calls, sees the ids, phase and totals of the innermost calls around it.
  lemma {:induction false} LayersSeeInnermost(c: Call, env: Context, counters: Counters, s: Seen)
    requires s in Walk(c, env, counters).seen
    ensures Placed(s, c, env, Walk(c, env, counters).issued)
    decreases c, 1
  {
    match c
    case Layer(layer, _) =>
      assert OnPath([], c, s, c, env, []);
    case Step(engine, body, catches, raises) =>
      var id := CountOf(counters, Engine(engine)) + 1;
      var inner, counters' := Context(Some(id), env.forward, env.phase, env.total), counters[Engine(engine) := id];
      var o := WalkAll(body, catches, inner, counters');
      BodySeesInnermost(body, catches, inner, counters', s);
      var i :| 0 <= i < |body| && Placed(s, body[i], inner, o.issued);
      PlacedUnder(s, body[i], inner, o.issued, Frame(c, id), i, env, Issued(Engine(engine), id));
    case Execute(runner, tag, phase, total, body, catches, raises) =>
      var id := CountOf(counters, Runner(runner)) + 1;
      var inner := Context(if tag.Some? then tag else env.step, Some(id), Some(phase), total);
      var counters' := counters[Runner(runner) := id];
      var o := WalkAll(body, catches, inner, counters');
      BodySeesInnermost(body, catches, inner, counters', s);
      var i :| 0 <= i < |body| && Placed(s, body[i], inner, o.issued);
      PlacedUnder(s, body[i], inner, o.issued, Frame(c, id), i, env, Issued(Runner(runner), id));
  }

  lemma {:induction false} BodySeesInnermost(cs: seq<Call>, catches: bool, env: Context, counters: Counters, s: Seen)
    requires s in WalkAll(cs, catches, env, counters).seen
    ensures PlacedIn(s, cs, env, WalkAll(cs, catches, env, counters).issued)
    decreases cs, 0
  {
    var first := Walk(cs[0], env, counters);
    if first.raised && !catches {
      LayersSeeInnermost(cs[0], env, counters, s);
    } else {
      var rest := WalkAll(cs[1..], catches, env, first.counters);
      if s in first.seen {
        LayersSeeInnermost(cs[0], env, counters, s);
        PlacedInFirst(s, cs, env, first.issued, rest.issued);
      } else {
        BodySeesInnermost(cs[1..], catches, env, first.counters, s);
        var i :| 0 <= i < |cs[1..]| && Placed(s, cs[1..][i], env, rest.issued);
        PlacedInRest(s, cs, i + 1, env, first.issued, rest.issued);
      }
    }
  }

  lemma PlacedInFirst(s: Seen, cs: seq<Call>, env: Context, first: seq<Issued>, rest: seq<Issued>)
    requires cs != [] && Placed(s, cs[0], env, first)
    ensures PlacedIn(s, cs, env, first + rest)
  {
    PlacedMore(s, cs[0], env, first, [], rest);
    assert [] + first + rest == first + rest;
  }

  lemma PlacedInRest(s: Seen, cs: seq<Call>, i: nat, env: Context, first: seq<Issued>, rest: seq<Issued>)
    requires i < |cs| && Placed(s, cs[i], env, rest)
    ensures PlacedIn(s, cs, env, first + rest)
  {
    PlacedMore(s, cs[i], env, rest, first, []);
    assert first + rest + [] == first + rest;
  }

  // ---------------------------------------------------------------- what runs

  // A call raises if it does so itself or if a call in its body does and is not caught.
  ghost predicate RaisesOut(c: Call) {
    match c
    case Layer(_, raises) => raises
    case Step(_, body, catches, raises) => raises || (!catches && exists i :: 0 <= i < |body| && RaisesOut(body[i]))
    case Execute(_, _, _, _, body, catches, raises) =>
      raises || (!catches && exists i :: 0 <= i < |body| && RaisesOut(body[i]))
  }

  lemma {:induction false} RaisedExactly(c: Call, env: Context, counters: Counters)
    ensures Walk(c, env, counters).raised <==> RaisesOut(c)
    decreases c, 1
  {
    match c
    case Layer(_, _) =>
    case Step(engine, body, catches, _) =>
      var id := CountOf(counters, Engine(engine)) + 1;
      BodyRaisedExactly(body, catches, StepContext(env, id), counters[Engine(engine) := id]);
    case Execute(runner, _, _, _, body, catches, _) =>
      var id := CountOf(counters, Runner(runner)) + 1;
      BodyRaisedExactly(body, catches, ExecuteContext(env, c, id), counters[Runner(runner) := id]);
  }

  lemma {:induction false} BodyRaisedExactly(cs: seq<Call>, catches: bool, env: Context, counters: Counters)
    ensures WalkAll(cs, catches, env, counters).raised <==> !catches && exists i :: 0 <= i < |cs| && RaisesOut(cs[i])
    decreases cs, 0
  {
    if cs != [] {
      RaisedExactly(cs[0], env, counters);
      var first := Walk(cs[0], env, counters);
      if !first.raised || catches {
        BodyRaisedExactly(cs[1..], catches, env, first.counters);
        assert forall i :: 0 <= i < |cs| - 1 ==> cs[1..][i] == cs[i + 1];
        if i :| 0 <= i < |cs| && RaisesOut(cs[i]) {
          assert i == 0 || RaisesOut(cs[1..][i - 1]);
        }
      }
    }
  }

  // The layers that are reached, in order: those of a body up to and including the first call
  // that raises uncaught.
  ghost function Reached(c: Call): seq<nat>
    decreases c, 1
  {
    match c
    case Layer(layer, _) => [layer]
    case Step(_, body, catches, _) => ReachedIn(body, catches)
    case Execute(_, _, _, _, body, catches, _) => ReachedIn(body, catches)
  }

  ghost function ReachedIn(cs: seq<Call>, catches: bool): seq<nat>
    decreases cs, 0
  {
    if cs == [] then []
    else Reached(cs[0]) + if RaisesOut(cs[0]) && !catches then [] else ReachedIn(cs[1..], catches)
  }

  function LayersIn(seen: seq<Seen>): (ls: seq<nat>)
    ensures |ls| == |seen| && forall i :: 0 <= i < |ls| ==> ls[i] == seen[i].layer
  {
    seq(|seen|, i requires 0 <= i < |seen| => seen[i].layer)
  }

  lemma {:induction false} ReachedLayersSee(c: Call, env: Context, counters: Counters)
    ensures LayersIn(Walk(c, env, counters).seen) == Reached(c)
    decreases c, 1
  {
    match c
    case Layer(_, _) =>
    case Step(engine, body, catches, _) =>
      var id := CountOf(counters, Engine(engine)) + 1;
      ReachedBodySees(body, catches, StepContext(env, id), counters[Engine(engine) := id]);
    case Execute(runner, _, _, _, body, catches, _) =>
      var id := CountOf(counters, Runner(runner)) + 1;
      ReachedBodySees(body, catches, ExecuteContext(env, c, id), counters[Runner(runner) := id]);
  }

  lemma {:induction false} ReachedBodySees(cs: seq<Call>, catches: bool, env: Context, counters: Counters)
    ensures LayersIn(WalkAll(cs, catches, env, counters).seen) == ReachedIn(cs, catches)
    decreases cs, 0
  {
    if cs != [] {
      RaisedExactly(cs[0], env, counters);
      ReachedLayersSee(cs[0], env, counters);
      var first := Walk(cs[0], env, counters);
      if !first.raised || catches {
        ReachedBodySees(cs[1..], catches, env, first.counters);
        var rest := WalkAll(cs[1..], catches, env, first.counters);
        assert LayersIn(first.seen + rest.seen) == LayersIn(first.seen) + LayersIn(rest.seen);
      } else {
        assert LayersIn(first.seen) + [] == LayersIn(first.seen);
      }
    }
  }

  // ---------------------------------------------------------------- the patched code

  // A run of the patched code from outside, in the terms of the calls themselves: the layers
  // reached have run in order, each has seen the ids, phase and total of the innermost calls
  // around it, and the run raises exactly if some call raises uncaught.
  method RunWhole(thread: Thread, c: Call) returns (raised: bool)
    modifies thread
    ensures thread.context == old(thread.context)
    ensures raised <==> RaisesOut(c)
    ensures old(thread.seen) <= thread.seen && old(thread.issued) <= thread.issued
    ensures LayersIn(thread.seen[|old(thread.seen)|..]) == Reached(c)
    ensures forall k :: |old(thread.seen)| <= k < |thread.seen| ==>
              Placed(thread.seen[k], c, old(thread.context), thread.issued[|old(thread.issued)|..])
  {
    ghost var o := Walk(c, thread.context, thread.counters);
    RaisedExactly(c, thread.context, thread.counters);
    ReachedLayersSee(c, thread.context, thread.counters);
    ghost var env0, counters0 := thread.context, thread.counters;
    raised := thread.Run(c);
    assert thread.seen[|old(thread.seen)|..] == o.seen && thread.issued[|old(thread.issued)|..] == o.issued;
    forall k | |old(thread.seen)| <= k < |thread.seen|
      ensures Placed(thread.seen[k], c, old(thread.context), thread.issued[|old(thread.issued)|..])
    {
      assert thread.seen[k] == o.seen[k - |old(thread.seen)|];
      LayersSeeInnermost(c, env0, counters0, thread.seen[k]);
    }
  }
}
