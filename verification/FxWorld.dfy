// Any number of worker processes over one trace directory. Each append to a shared file and each
// read-compare-replace of the metadata file is one step, so writes of different processes may
// come between the writes of one forward.
module FxWorld {
  import opened FxCapture
  import opened Options
  import opened Sets

  // A process and the writes it has still to make before its next forward.
  datatype Proc = Proc(state: State, pending: seq<Action>)

  datatype World = World(
    procs: seq<Proc>,
    dir: Dir,
    offered: seq<State>)      // everything any process has offered to the file so far

  datatype Move =
    | Invoke(pid: nat, forward: Forward)
    | Save(pid: nat)          // the write at load time or at exit
    | Advance(pid: nat)          // the process makes its next write

  function Start(n: nat): World {
    World(seq(n, _ => Proc(INITIAL, [])), Dir([], 0, None), [])
  }

  function StepOf(w: World, pid: nat): World
    requires pid < |w.procs| && w.procs[pid].pending != []
  {
    var Proc(s, pending) := w.procs[pid];
    World(w.procs[pid := Proc(s, pending[1..])], Perform(w.dir, pending[0]),
          if pending[0].Put? then w.offered + [pending[0].state] else w.offered)
  }

  // A process that has writes to make makes them first; one that has none can do something new.
  function Next(cfg: Config, w: World, m: Move): World {
    if m.pid >= |w.procs| then w
    else if m.Advance? then (if w.procs[m.pid].pending == [] then w else StepOf(w, m.pid))
    else if w.procs[m.pid].pending != [] then w
    else
      var s := w.procs[m.pid].state;
      match m
      case Invoke(pid, c) =>
        var e := LayerForward(cfg, s, pid, c);
        w.(procs := w.procs[pid := Proc(e.state, e.actions)])
      case Save(pid) => w.(procs := w.procs[pid := Proc(s, [Put(s)])])
  }

  function Run(cfg: Config, w: World, moves: seq<Move>): World {
    if moves == [] then w else Next(cfg, Run(cfg, w, moves[..|moves| - 1]), moves[|moves| - 1])
  }

  lemma {:induction false} RunKeepsProcs(cfg: Config, w: World, moves: seq<Move>)
    ensures |Run(cfg, w, moves).procs| == |w.procs|
  {
    if moves != [] {
      RunKeepsProcs(cfg, w, moves[..|moves| - 1]);
    }
  }

  // ---------------------------------------------------------------- the metadata file

  // The file holds one of the best offers made so far.
  ghost predicate HoldsBest(file: Option<State>, offered: seq<State>) {
    && (file == None <==> offered == [])
    && (file.Some? ==> file.value in offered && forall s :: s in offered ==> Score(s) <= Score(file.value))
  }

  // A file that only ever gets better.
  ghost predicate NoWorse(before: Option<State>, after: Option<State>) {
    before.Some? ==> after.Some? && Score(before.value) <= Score(after.value)
  }

  lemma OfferKeepsBest(file: Option<State>, offered: seq<State>, s: State)
    requires HoldsBest(file, offered)
    ensures HoldsBest(Offer(file, s), offered + [s]) && NoWorse(file, Offer(file, s))
  {
  }

  // No step of any process lowers the file's score.
  lemma FileScoreNeverFalls(cfg: Config, w: World, m: Move)
    requires HoldsBest(w.dir.file, w.offered)
    ensures var w' := Next(cfg, w, m);
            HoldsBest(w'.dir.file, w'.offered) && NoWorse(w.dir.file, w'.dir.file)
  {
    if m.Advance? && m.pid < |w.procs| && w.procs[m.pid].pending != [] {
      var a := w.procs[m.pid].pending[0];
      if a.Put? {
        OfferKeepsBest(w.dir.file, w.offered, a.state);
      }
    }
  }

  // Over any continuation of a run the file's score never falls.
  lemma {:induction false} FileScoreNeverFallsInRun(cfg: Config, w: World, moves: seq<Move>)
    requires HoldsBest(w.dir.file, w.offered)
    ensures var w' := Run(cfg, w, moves);
            HoldsBest(w'.dir.file, w'.offered) && NoWorse(w.dir.file, w'.dir.file)
  {
    if moves != [] {
      var n := |moves| - 1;
      FileScoreNeverFallsInRun(cfg, w, moves[..n]);
      FileScoreNeverFalls(cfg, Run(cfg, w, moves[..n]), moves[n]);
    }
  }

  // Over any interleaving, the file's score is the maximum of all scores offered.
  lemma FileHoldsBestOfRun(cfg: Config, n: nat, moves: seq<Move>)
    ensures HoldsBest(Run(cfg, Start(n), moves).dir.file, Run(cfg, Start(n), moves).offered)
  {
    FileScoreNeverFallsInRun(cfg, Start(n), moves);
  }

  // The process, and every offer it has still to make, scores less than the record.
  ghost predicate Lesser(p: Proc, record: State) {
    && Score(p.state) < Score(record)
    && forall a :: a in p.pending && a.Put? ==> Score(a.state) < Score(record)
  }

  // Workers that saw less than the recorded one cannot overwrite its record, however many of
  // them finish their writes and exit in whatever order.
  lemma {:induction false} LesserExitsKeepRecord(cfg: Config, w: World, moves: seq<Move>)
    requires w.dir.file.Some?
    requires forall i :: 0 <= i < |moves| ==> !moves[i].Invoke?
    requires forall p :: 0 <= p < |w.procs| ==> Lesser(w.procs[p], w.dir.file.value)
    ensures var w' := Run(cfg, w, moves);
            && w'.dir.file == w.dir.file
            && forall p :: 0 <= p < |w'.procs| ==> Lesser(w'.procs[p], w.dir.file.value)
  {
    if moves != [] {
      var n := |moves| - 1;
      LesserExitsKeepRecord(cfg, w, moves[..n]);
      LesserMove(cfg, Run(cfg, w, moves[..n]), moves[n]);
    }
  }

  lemma LesserMove(cfg: Config, w: World, m: Move)
    requires w.dir.file.Some? && !m.Invoke?
    requires forall p :: 0 <= p < |w.procs| ==> Lesser(w.procs[p], w.dir.file.value)
    ensures var w' := Next(cfg, w, m);
            && w'.dir.file == w.dir.file
            && forall p :: 0 <= p < |w'.procs| ==> Lesser(w'.procs[p], w.dir.file.value)
  {
    if m.pid < |w.procs| {
      var p := w.procs[m.pid];
      assert Lesser(p, w.dir.file.value);
      if m.Advance? && p.pending != [] {
        assert p.pending[0] in p.pending;
        assert forall a :: a in p.pending[1..] ==> a in p.pending;
      }
    }
  }

  // ---------------------------------------------------------------- counters and rows

  // The manifest rows written by one process.
  function Own(rows: seq<Row>, pid: nat): seq<Row> {
    if rows == [] then []
    else Own(rows[..|rows| - 1], pid) + if rows[|rows| - 1].pid == pid then [rows[|rows| - 1]] else []
  }

  lemma OwnOne(rows: seq<Row>, row: Row, pid: nat)
    ensures Own(rows + [row], pid) == Own(rows, pid) + if row.pid == pid then [row] else []
  {
    assert (rows + [row])[..|rows|] == rows;
  }

  datatype Counter = Samples | Traces | Errors | LayerEvents

  function Read(s: State, f: Counter): nat {
    match f
    case Samples => s.samples
    case Traces => s.traces
    case Errors => s.errors
    case LayerEvents => s.layerEvents
  }

  // What the shared files say about a counter.
  function InFiles(d: Dir, f: Counter): nat {
    match f
    case Samples => |d.manifest|
    case Traces => CountOk(d.manifest, true)
    case Errors => CountOk(d.manifest, false)
    case LayerEvents => d.layerRows
  }

  // What a write adds to that.
  function Adds(a: Action, f: Counter): nat {
    match f
    case Samples => if a.AppendRow? then 1 else 0
    case Traces => if a.AppendRow? && a.row.ok then 1 else 0
    case Errors => if a.AppendRow? && !a.row.ok then 1 else 0
    case LayerEvents => if a.AppendLayer? then 1 else 0
  }

  function Owed(pending: seq<Action>, f: Counter): nat {
    if pending == [] then 0 else Adds(pending[0], f) + Owed(pending[1..], f)
  }

  lemma PerformAdds(d: Dir, a: Action, f: Counter)
    ensures InFiles(Perform(d, a), f) == InFiles(d, f) + Adds(a, f)
  {
    if a.AppendRow? {
      CountOkOneMore(d.manifest, a.row, true);
      CountOkOneMore(d.manifest, a.row, false);
    }
  }

  // What a forward counts is what it has to write.
  lemma ForwardOwes(cfg: Config, s: State, pid: nat, c: Forward, f: Counter)
    ensures var e := LayerForward(cfg, s, pid, c);
            Read(e.state, f) == Read(s, f) + Owed(e.actions, f)
  {
    var actions := LayerForward(cfg, s, pid, c).actions;
    if |actions| == 2 {
      OwedTwo(actions, f);
    } else if |actions| == 4 {
      OwedTwo(actions[2..], f);
      assert actions[1..][1..] == actions[2..];
      assert Owed(actions[1..], f) == Adds(actions[1], f) + Owed(actions[2..], f);
    }
  }

  lemma OwedTwo(actions: seq<Action>, f: Counter)
    requires |actions| == 2
    ensures Owed(actions, f) == Adds(actions[0], f) + Adds(actions[1], f)
  {
    assert actions[1..][1..] == [];
    assert Owed(actions[1..], f) == Adds(actions[1], f) + Owed([], f);
  }

  // What a process has counted, less what it has still to write.
  function Written(p: Proc, f: Counter): int {
    Read(p.state, f) - Owed(p.pending, f)
  }

  function Total(procs: seq<Proc>, f: Counter): int {
    if procs == [] then 0 else Total(procs[..|procs| - 1], f) + Written(procs[|procs| - 1], f)
  }

  lemma {:induction false} TotalUpdate(procs: seq<Proc>, i: nat, p: Proc, f: Counter)
    requires i < |procs|
    ensures Total(procs[i := p], f) == Total(procs, f) + Written(p, f) - Written(procs[i], f)
  {
    var n := |procs| - 1;
    if i == n {
      assert procs[i := p][..n] == procs[..n];
    } else {
      assert procs[i := p][..n] == procs[..n][i := p];
      TotalUpdate(procs[..n], i, p, f);
    }
  }

  lemma {:induction false} TotalOfInitial(n: nat, f: Counter)
    ensures Total(Start(n).procs, f) == 0
  {
    if n > 0 {
      TotalOfInitial(n - 1, f);
      assert Start(n).procs[..n - 1] == Start(n - 1).procs;
    }
  }

  // The rows of a process: written, then still to write.
  function AllRows(w: World, pid: nat): seq<Row>
    requires pid < |w.procs|
  {
    Own(w.dir.manifest, pid) + RowsOf(w.procs[pid].pending)
  }

  ghost predicate OwnPending(p: Proc, pid: nat) {
    forall a :: a in p.pending && a.AppendRow? ==> a.row.pid == pid
  }

  // Every process is sound about its own rows, and the shared files add up over all processes.
  ghost predicate AddsUp(cfg: Config, w: World) {
    && (forall p :: 0 <= p < |w.procs| ==> Sound(cfg, w.procs[p].state, AllRows(w, p)))
    && (forall p :: 0 <= p < |w.procs| ==> OwnPending(w.procs[p], p))
    && (forall i :: 0 <= i < |w.dir.manifest| ==> w.dir.manifest[i].pid < |w.procs|)
    && (forall f :: InFiles(w.dir, f) == Total(w.procs, f))
  }

  // A write moves a row from the pending ones to the written ones.
  lemma StepKeepsRows(w: World, pid: nat, p: nat)
    requires pid < |w.procs| && p < |w.procs| && w.procs[pid].pending != [] && OwnPending(w.procs[pid], pid)
    ensures AllRows(StepOf(w, pid), p) == AllRows(w, p)
  {
    var rows, pending := w.dir.manifest, w.procs[pid].pending;
    var a, rest := pending[0], pending[1..];
    assert a in pending;
    if p != pid {
      RowsAfter(rows, a, p, RowsOf(w.procs[p].pending));
    } else {
      assert RowsOf(pending) == (if a.AppendRow? then [a.row] else []) + RowsOf(rest);
      RowsAfter(rows, a, p, RowsOf(rest));
    }
  }

  lemma RowsAfter(rows: seq<Row>, a: Action, p: nat, rest: seq<Row>)
    ensures var rows' := if a.AppendRow? then rows + [a.row] else rows;
            Own(rows', p) + rest == Own(rows, p) + ((if a.AppendRow? && a.row.pid == p then [a.row] else []) + rest)
  {
    if a.AppendRow? {
      OwnOne(rows, a.row, p);
    }
  }

  lemma StepAddsUp(cfg: Config, w: World, pid: nat)
    requires AddsUp(cfg, w) && pid < |w.procs| && w.procs[pid].pending != []
    ensures AddsUp(cfg, StepOf(w, pid))
  {
    var w', was := StepOf(w, pid), w.procs[pid];
    var a, now := was.pending[0], Proc(was.state, was.pending[1..]);
    assert a in was.pending && forall b :: b in now.pending ==> b in was.pending;
    forall p | 0 <= p < |w.procs|
      ensures Sound(cfg, w'.procs[p].state, AllRows(w', p)) && OwnPending(w'.procs[p], p)
    {
      StepKeepsRows(w, pid, p);
      assert Sound(cfg, w.procs[p].state, AllRows(w, p)) && OwnPending(w.procs[p], p);
    }
    forall f ensures InFiles(w'.dir, f) == Total(w'.procs, f) {
      PerformAdds(w.dir, a, f);
      TotalUpdate(w.procs, pid, now, f);
      assert InFiles(w.dir, f) == Total(w.procs, f);
    }
    forall i | 0 <= i < |w'.dir.manifest| ensures w'.dir.manifest[i].pid < |w.procs| {
      if i < |w.dir.manifest| {
        assert w'.dir.manifest[i] == w.dir.manifest[i];
      }
    }
  }

  // A process without pending writes goes on to a new state and new writes that match.
  lemma MoveOnAddsUp(cfg: Config, w: World, pid: nat, p': Proc)
    requires AddsUp(cfg, w) && pid < |w.procs| && w.procs[pid].pending == [] && OwnPending(p', pid)
    requires Sound(cfg, p'.state, Own(w.dir.manifest, pid) + RowsOf(p'.pending))
    requires forall f :: Written(p', f) == Read(w.procs[pid].state, f)
    ensures AddsUp(cfg, w.(procs := w.procs[pid := p']))
  {
    var w' := w.(procs := w.procs[pid := p']);
    forall p | 0 <= p < |w.procs|
      ensures Sound(cfg, w'.procs[p].state, AllRows(w', p)) && OwnPending(w'.procs[p], p)
    {
      if p != pid {
        assert AllRows(w', p) == AllRows(w, p);
        assert Sound(cfg, w.procs[p].state, AllRows(w, p)) && OwnPending(w.procs[p], p);
      }
    }
    forall f ensures InFiles(w'.dir, f) == Total(w'.procs, f) {
      TotalUpdate(w.procs, pid, p', f);
      assert Written(p', f) == Read(w.procs[pid].state, f) == Written(w.procs[pid], f);
      assert InFiles(w.dir, f) == Total(w.procs, f);
    }
  }

  lemma CallAddsUp(cfg: Config, w: World, pid: nat, c: Forward)
    requires AddsUp(cfg, w) && pid < |w.procs| && w.procs[pid].pending == []
    ensures AddsUp(cfg, Next(cfg, w, Invoke(pid, c)))
  {
    assert AllRows(w, pid) == Own(w.dir.manifest, pid);
    var p' := ForwardProc(cfg, w.procs[pid].state, Own(w.dir.manifest, pid), pid, c);
    MoveOnAddsUp(cfg, w, pid, p');
  }

  lemma ForwardProc(cfg: Config, s: State, rows: seq<Row>, pid: nat, c: Forward) returns (p: Proc)
    requires Sound(cfg, s, rows)
    ensures p == Proc(LayerForward(cfg, s, pid, c).state, LayerForward(cfg, s, pid, c).actions)
    ensures OwnPending(p, pid) && Sound(cfg, p.state, rows + RowsOf(p.pending))
    ensures forall f :: Written(p, f) == Read(s, f)
  {
    var e := LayerForward(cfg, s, pid, c);
    p := Proc(e.state, e.actions);
    ForwardKeepsSound(cfg, s, rows, pid, c);
    forall f ensures Written(p, f) == Read(s, f) {
      ForwardOwes(cfg, s, pid, c, f);
    }
  }

  lemma SaveAddsUp(cfg: Config, w: World, pid: nat)
    requires AddsUp(cfg, w) && pid < |w.procs| && w.procs[pid].pending == []
    ensures AddsUp(cfg, Next(cfg, w, Save(pid)))
  {
    var s := w.procs[pid].state;
    var p' := Proc(s, [Put(s)]);
    assert [Put(s)][1..] == [];
    assert RowsOf(p'.pending) == [];
    assert AllRows(w, pid) == Own(w.dir.manifest, pid) + RowsOf(p'.pending);
    forall f ensures Written(p', f) == Read(s, f) {
      assert Owed([Put(s)], f) == 0;
    }
    MoveOnAddsUp(cfg, w, pid, p');
  }

  // Over any interleaving of any number of processes: every process's counters are right, and
  // the shared files hold what the processes have counted, less what they have still to write.
  lemma {:induction false} RunAddsUp(cfg: Config, n: nat, moves: seq<Move>)
    ensures AddsUp(cfg, Run(cfg, Start(n), moves))
  {
    if moves == [] {
      SoundInitially(cfg);
      assert forall p :: 0 <= p < n ==> AllRows(Start(n), p) == [];
      forall f ensures InFiles(Start(n).dir, f) == Total(Start(n).procs, f) {
        TotalOfInitial(n, f);
      }
    } else {
      var k := |moves| - 1;
      RunAddsUp(cfg, n, moves[..k]);
      var w, m := Run(cfg, Start(n), moves[..k]), moves[k];
      if m.pid < |w.procs| {
        if m.Advance? && w.procs[m.pid].pending != [] {
          StepAddsUp(cfg, w, m.pid);
        } else if m.Invoke? && w.procs[m.pid].pending == [] {
          CallAddsUp(cfg, w, m.pid, m.forward);
        } else if m.Save? && w.procs[m.pid].pending == [] {
          SaveAddsUp(cfg, w, m.pid);
        }
      }
    }
  }

  // How many events the process captured and lost to a raising forward during a run.
  function Lost(cfg: Config, w: World, moves: seq<Move>, pid: nat): nat {
    if moves == [] then 0
    else
      var n := |moves| - 1;
      Lost(cfg, w, moves[..n], pid) + if LosesNow(cfg, Run(cfg, w, moves[..n]), moves[n], pid) then 1 else 0
  }

  predicate LosesNow(cfg: Config, w: World, m: Move, pid: nat) {
    && m.Invoke? && m.pid == pid && pid < |w.procs| && w.procs[pid].pending == []
    && Loses(cfg, w.procs[pid].state, m.forward)
  }

  // Over any interleaving, every captured event is either sampled or lost to a raising forward.
  lemma {:induction false} CapturedIsSampledPlusLost(cfg: Config, n: nat, moves: seq<Move>, pid: nat)
    requires pid < n
    ensures var w := Run(cfg, Start(n), moves);
            && |w.procs| == n
            && |w.procs[pid].state.captured| == w.procs[pid].state.samples + Lost(cfg, Start(n), moves, pid)
  {
    if moves != [] {
      var k := |moves| - 1;
      CapturedIsSampledPlusLost(cfg, n, moves[..k], pid);
      var w := Run(cfg, Start(n), moves[..k]);
      if moves[k].Invoke? && moves[k].pid == pid && w.procs[pid].pending == [] {
        CapturedBalance(cfg, w.procs[pid].state, pid, moves[k].forward);
      }
    }
  }

  // All writes have been made.
  ghost predicate Quiet(w: World) {
    forall p :: 0 <= p < |w.procs| ==> w.procs[p].pending == []
  }

  // Then every process has exactly its own rows in the manifest.
  lemma QuietRows(cfg: Config, w: World, pid: nat)
    requires AddsUp(cfg, w) && Quiet(w) && pid < |w.procs|
    ensures Sound(cfg, w.procs[pid].state, Own(w.dir.manifest, pid))
  {
    assert Sound(cfg, w.procs[pid].state, AllRows(w, pid));
    assert AllRows(w, pid) == Own(w.dir.manifest, pid);
  }

  // A process that makes all its pending writes undisturbed leaves what the wrapped forward of
  // one worker leaves.
  function Flush(w: World, pid: nat): World
    requires pid < |w.procs|
    decreases |w.procs[pid].pending|
  {
    if w.procs[pid].pending == [] then w else Flush(StepOf(w, pid), pid)
  }

  lemma {:induction false} FlushPerformsAll(w: World, pid: nat)
    requires pid < |w.procs|
    ensures Flush(w, pid).dir == PerformAll(w.dir, w.procs[pid].pending)
    ensures Flush(w, pid).procs == w.procs[pid := Proc(w.procs[pid].state, [])]
    decreases |w.procs[pid].pending|
  {
    if w.procs[pid].pending != [] {
      FlushPerformsAll(StepOf(w, pid), pid);
    }
  }

  function Steps(pid: nat, k: nat): (moves: seq<Move>)
    ensures |moves| == k && forall i :: 0 <= i < k ==> moves[i] == Advance(pid)
  {
    seq(k, _ => Advance(pid))
  }

  lemma {:induction false} StepsFlush(cfg: Config, start: World, moves: seq<Move>, pid: nat)
    requires pid < |Run(cfg, start, moves).procs|
    ensures var w := Run(cfg, start, moves);
            Run(cfg, start, moves + Steps(pid, |w.procs[pid].pending|)) == Flush(w, pid)
    decreases |Run(cfg, start, moves).procs[pid].pending|
  {
    var w := Run(cfg, start, moves);
    var k := |w.procs[pid].pending|;
    if k == 0 {
      assert moves + Steps(pid, 0) == moves;
    } else {
      RunOneMore(cfg, start, moves, Advance(pid));
      StepsFlush(cfg, start, moves + [Advance(pid)], pid);
      assert moves + Steps(pid, k) == (moves + [Advance(pid)]) + Steps(pid, k - 1);
    }
  }

  lemma {:induction false} PerformAllRows(d: Dir, actions: seq<Action>)
    ensures PerformAll(d, actions).manifest == d.manifest + RowsOf(actions)
    decreases |actions|
  {
    if actions != [] {
      PerformAllRows(Perform(d, actions[0]), actions[1..]);
    }
  }

  // ---------------------------------------------------------------- where offers come from

  // `s` is an earlier state of a process that is now in state `now`.
  ghost predicate Earlier(cfg: Config, s: State, now: State) {
    && s.captured <= now.captured && SoundLayers(cfg, s.captured, s.byLayer)
    && s.layerEvents <= now.layerEvents && s.samples <= now.samples && s.traces <= now.traces && s.errors <= now.errors
  }

  ghost predicate FromSome(cfg: Config, s: State, procs: seq<Proc>) {
    exists p :: 0 <= p < |procs| && Earlier(cfg, s, procs[p].state)
  }

  // Every offer, made or still to make, is an earlier state of some process.
  ghost predicate OffersTraced(cfg: Config, w: World) {
    && (forall s :: s in w.offered ==> FromSome(cfg, s, w.procs))
    && (forall p, a :: 0 <= p < |w.procs| && a in w.procs[p].pending && a.Put? ==> Earlier(cfg, a.state, w.procs[p].state))
  }

  // A process that goes on keeps its earlier states behind it.
  lemma MoveOnKeepsOffers(cfg: Config, w: World, pid: nat, p': Proc)
    requires OffersTraced(cfg, w) && pid < |w.procs|
    requires forall s :: Earlier(cfg, s, w.procs[pid].state) ==> Earlier(cfg, s, p'.state)
    requires forall a :: a in p'.pending && a.Put? ==> Earlier(cfg, a.state, p'.state)
    ensures OffersTraced(cfg, w.(procs := w.procs[pid := p']))
  {
    var procs' := w.procs[pid := p'];
    forall s | s in w.offered ensures FromSome(cfg, s, procs') {
      assert FromSome(cfg, s, w.procs);
      var p :| 0 <= p < |w.procs| && Earlier(cfg, s, w.procs[p].state);
      assert Earlier(cfg, s, procs'[p].state);
    }
  }

  lemma StepKeepsOffers(cfg: Config, w: World, pid: nat)
    requires OffersTraced(cfg, w) && pid < |w.procs| && w.procs[pid].pending != []
    ensures OffersTraced(cfg, StepOf(w, pid))
  {
    var was := w.procs[pid];
    var a, now := was.pending[0], Proc(was.state, was.pending[1..]);
    assert a in was.pending && forall b :: b in now.pending ==> b in was.pending;
    MoveOnKeepsOffers(cfg, w, pid, now);
    if a.Put? {
      assert Earlier(cfg, a.state, w.procs[pid := now][pid].state);
    }
  }

  // What a forward offers is what it leaves, but for the count of observed events.
  lemma ForwardOffers(cfg: Config, s: State, rows: seq<Row>, pid: nat, c: Forward)
    requires Sound(cfg, s, rows)
    ensures var e := LayerForward(cfg, s, pid, c);
            && (forall t :: Earlier(cfg, t, s) ==> Earlier(cfg, t, e.state))
            && (forall a :: a in e.actions && a.Put? ==> Earlier(cfg, a.state, e.state))
  {
    var e := LayerForward(cfg, s, pid, c);
    ForwardKeepsSound(cfg, s, rows, pid, c);
    CapturedOnce(cfg, s, pid, c);
    assert SoundLayers(cfg, e.state.captured, e.state.byLayer);
    forall a | a in e.actions && a.Put? ensures Earlier(cfg, a.state, e.state) {
      assert a.state.captured == e.state.captured && a.state.byLayer == e.state.byLayer;
    }
  }

  lemma {:induction false} OffersAreStates(cfg: Config, n: nat, moves: seq<Move>)
    ensures OffersTraced(cfg, Run(cfg, Start(n), moves))
  {
    if moves != [] {
      var k := |moves| - 1;
      OffersAreStates(cfg, n, moves[..k]);
      RunAddsUp(cfg, n, moves[..k]);
      var w, m := Run(cfg, Start(n), moves[..k]), moves[k];
      if m.pid < |w.procs| {
        var p := w.procs[m.pid];
        assert Sound(cfg, p.state, AllRows(w, m.pid));
        if m.Advance? && p.pending != [] {
          StepKeepsOffers(cfg, w, m.pid);
        } else if m.Invoke? && p.pending == [] {
          var e := LayerForward(cfg, p.state, m.pid, m.forward);
          ForwardOffers(cfg, p.state, AllRows(w, m.pid), m.pid, m.forward);
          MoveOnKeepsOffers(cfg, w, m.pid, Proc(e.state, e.actions));
        } else if m.Save? && p.pending == [] {
          MoveOnKeepsOffers(cfg, w, m.pid, Proc(p.state, [Put(p.state)]));
        }
      }
    }
  }

  // Two sound layer counters of the same events are the same.
  lemma SameLayers(cfg: Config, captured: set<Key>, a: map<int, nat>, b: map<int, nat>)
    requires SoundLayers(cfg, captured, a) && SoundLayers(cfg, captured, b)
    ensures a == b
  {
    forall l ensures l in a <==> l in b {
      assert CountFor(a, l) == |OfLayer(captured, l)| == CountFor(b, l);
    }
    forall l | l in a ensures a[l] == b[l] {
      assert CountFor(a, l) == |OfLayer(captured, l)| == CountFor(b, l);
    }
  }

  // Once every process has offered its last state, the file holds the last state of a process
  // that scores highest.
  lemma ExitsLeaveBestProcess(cfg: Config, n: nat, moves: seq<Move>) returns (q: nat)
    requires n > 0
    requires var w := Run(cfg, Start(n), moves);
             forall p :: 0 <= p < |w.procs| ==> w.procs[p].state in w.offered
    ensures var w := Run(cfg, Start(n), moves);
            && |w.procs| == n && q < n && w.dir.file == Some(w.procs[q].state)
            && forall p :: 0 <= p < n ==> Score(w.procs[p].state) <= Score(w.procs[q].state)
  {
    RunKeepsProcs(cfg, Start(n), moves);
    FileHoldsBestOfRun(cfg, n, moves);
    OffersAreStates(cfg, n, moves);
    RunAddsUp(cfg, n, moves);
    q := BestProcess(cfg, Run(cfg, Start(n), moves));
  }

  lemma BestProcess(cfg: Config, w: World) returns (q: nat)
    requires w.procs != [] && forall p :: 0 <= p < |w.procs| ==> w.procs[p].state in w.offered
    requires HoldsBest(w.dir.file, w.offered) && OffersTraced(cfg, w) && AddsUp(cfg, w)
    ensures q < |w.procs| && w.dir.file == Some(w.procs[q].state)
    ensures forall p :: 0 <= p < |w.procs| ==> Score(w.procs[p].state) <= Score(w.procs[q].state)
  {
    assert w.procs[0].state in w.offered;
    var f := w.dir.file.value;
    assert FromSome(cfg, f, w.procs);
    q :| 0 <= q < |w.procs| && Earlier(cfg, f, w.procs[q].state);
    assert w.procs[q].state in w.offered;
    NoLessIsSame(cfg, f, w.procs[q].state, AllRows(w, q));
  }

  // An earlier state with the same score is the state itself.
  lemma NoLessIsSame(cfg: Config, s: State, now: State, rows: seq<Row>)
    requires Earlier(cfg, s, now) && Sound(cfg, now, rows) && Score(now) <= Score(s)
    ensures s == now
  {
    SubsetCardinality(s.captured, now.captured);
    SameLayers(cfg, s.captured, s.byLayer, now.byLayer);
  }

  // ---------------------------------------------------------------- a process alone

  // No offer of a process, made or still to make, scores higher than the process itself.
  ghost predicate Leads(w: World) {
    && |w.procs| == 1
    && (w.dir.file.Some? ==> Score(w.dir.file.value) <= Score(w.procs[0].state))
    && forall a :: a in w.procs[0].pending && a.Put? ==> Score(a.state) <= Score(w.procs[0].state)
  }

  lemma {:induction false} LoneProcessLeads(cfg: Config, moves: seq<Move>)
    ensures Leads(Run(cfg, Start(1), moves))
  {
    if moves != [] {
      var k := |moves| - 1;
      LoneProcessLeads(cfg, moves[..k]);
      LeadsMove(cfg, Run(cfg, Start(1), moves[..k]), moves[k]);
    }
  }

  lemma LeadsMove(cfg: Config, w: World, m: Move)
    requires Leads(w)
    ensures Leads(Next(cfg, w, m))
  {
    if m.pid == 0 {
      var p := w.procs[0];
      if m.Advance? && p.pending != [] {
        assert p.pending[0] in p.pending;
        assert forall a :: a in p.pending[1..] ==> a in p.pending;
      } else if m.Invoke? && p.pending == [] {
        ScoreNeverFalls(cfg, p.state, 0, m.forward);
      }
    }
  }

  // So its last write at exit leaves its own record in the file.
  lemma ExitLeavesOwnRecord(cfg: Config, moves: seq<Move>)
    requires Quiet(Run(cfg, Start(1), moves))
    ensures var w, w' := Run(cfg, Start(1), moves), Run(cfg, Start(1), moves + [Save(0), Advance(0)]);
            && |w.procs| == 1 && w'.procs == w.procs && w'.dir == w.dir.(file := Some(w.procs[0].state))
  {
    var w := Run(cfg, Start(1), moves);
    LoneProcessLeads(cfg, moves);
    RunOneMore(cfg, Start(1), moves, Save(0));
    RunOneMore(cfg, Start(1), moves + [Save(0)], Advance(0));
    assert moves + [Save(0), Advance(0)] == (moves + [Save(0)]) + [Advance(0)];
    var s := w.procs[0].state;
    assert [Put(s)][1..] == [];
    assert w.procs[0 := Proc(s, [Put(s)])][0 := Proc(s, [])] == w.procs;
  }

  lemma RunOneMore(cfg: Config, w: World, moves: seq<Move>, m: Move)
    ensures Run(cfg, w, moves + [m]) == Next(cfg, Run(cfg, w, moves), m)
  {
    assert (moves + [m])[..|moves|] == moves;
  }
}
