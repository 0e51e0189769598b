/** The batch-aware tool node (agent/safe_tool_node.py): every interleaving its
    groups allow, and the collection of the outputs in call order. */
module SafeToolNode {
  import opened Wrappers
  import opened ParallelSafety

  // -------------------------------------------------- calls on a file store

  /** What one path holds; `None` is an absent file. */
  type Data = Option<string>
  type Store = map<Path, string>
  /** Everything a call has read so far, oldest first. */
  type History = seq<Data>

  /** One atomic access. Which path, and what is written back, may depend on
      everything read before; an access that only reads writes back what it read. */
  datatype Step = Step(path: History -> Path, write: (History, Data) -> Data)

  /** A call in progress: accesses still to come, what it read, and its output. */
  datatype Prog = Prog(todo: seq<Step>, seen: History, out: History -> string)

  function Get(s: Store, p: Path): Data { if p in s then Some(s[p]) else None }

  function Put(s: Store, p: Path, d: Data): Store {
    match d
    case None => s - {p}
    case Some(v) => s[p := v]
  }

  function Target(p: Prog): Path
    requires p.todo != []
  {
    p.todo[0].path(p.seen)
  }

  function StepProg(p: Prog, s: Store): Prog
    requires p.todo != []
  {
    Prog(p.todo[1..], p.seen + [Get(s, Target(p))], p.out)
  }

  function StepStore(p: Prog, s: Store): Store
    requires p.todo != []
  {
    Put(s, Target(p), p.todo[0].write(p.seen, Get(s, Target(p))))
  }

  /** A call run alone to its end. */
  function Finish(p: Prog, s: Store): (string, Store)
    decreases |p.todo|
  {
    if p.todo == [] then (p.out(p.seen), s) else Finish(StepProg(p, s), StepStore(p, s))
  }

  /** The reference: the calls run one after another, in call order. */
  function SerialStore(ps: seq<Prog>, s: Store): Store {
    if ps == [] then s else SerialStore(ps[1..], Finish(ps[0], s).1)
  }

  function SerialOutputs(ps: seq<Prog>, s: Store): (os: seq<string>)
    ensures |os| == |ps|
  {
    if ps == [] then [] else [Finish(ps[0], s).0] + SerialOutputs(ps[1..], Finish(ps[0], s).1)
  }

  // ------------------------------------------------------------ footprints

  datatype Footprint = Footprint(touches: iset<Path>, writes: iset<Path>)

  /** Every access stays inside the footprint, whatever is read. */
  ghost predicate Fits(p: Prog, f: Footprint) {
    && f.writes <= f.touches
    && (forall k, h :: 0 <= k < |p.todo| ==> p.todo[k].path(h) in f.touches)
    && (forall k, h, d :: 0 <= k < |p.todo| && p.todo[k].path(h) !in f.writes ==> p.todo[k].write(h, d) == d)
  }

  ghost predicate FitsAll(ps: seq<Prog>, fs: seq<Footprint>) {
    |ps| == |fs| && forall i :: 0 <= i < |ps| ==> Fits(ps[i], fs[i])
  }

  ghost predicate Conflict(f: Footprint, g: Footprint) {
    exists a :: a in f.touches && a in g.touches && (a in f.writes || a in g.writes)
  }

  // ---------------------------------------------------------- interleavings

  /** A lane is a list of calls one task runs in order. */
  type Lanes = seq<seq<nat>>

  datatype Config = Config(progs: seq<Prog>, store: Store)

  ghost predicate InLane(lane: seq<nat>, i: nat, j: nat) {
    exists a, b :: 0 <= a < b < |lane| && lane[a] == i && lane[b] == j
  }

  ghost predicate Before(lanes: Lanes, i: nat, j: nat) {
    exists lane :: lane in lanes && InLane(lane, i, j)
  }

  ghost predicate Covered(lanes: Lanes, i: nat) {
    exists lane :: lane in lanes && i in lane
  }

  /** Every call is in a lane, and no lane waits for itself. */
  ghost predicate Schedules(lanes: Lanes, n: nat) {
    && (forall i: nat :: i < n ==> Covered(lanes, i))
    && (forall i: nat, j: nat :: Before(lanes, i, j) ==> i < n && j < n)
    && (forall i: nat :: !Before(lanes, i, i))
  }

  ghost predicate Enabled(lanes: Lanes, c: Config, j: nat) {
    && j < |c.progs| && c.progs[j].todo != []
    && Covered(lanes, j)
    && (forall i: nat :: Before(lanes, i, j) ==> i < |c.progs| && c.progs[i].todo == [])
  }

  function Exec(c: Config, j: nat): Config
    requires j < |c.progs| && c.progs[j].todo != []
  {
    Config(c.progs[j := StepProg(c.progs[j], c.store)], StepStore(c.progs[j], c.store))
  }

  /** One interleaving: the calls that move, in the order they move. */
  ghost predicate IsRun(lanes: Lanes, c: Config, moves: seq<nat>, end: Config)
    decreases |moves|
  {
    if moves == [] then end == c
    else Enabled(lanes, c, moves[0]) && IsRun(lanes, Exec(c, moves[0]), moves[1..], end)
  }

  ghost predicate Done(c: Config) { forall i :: 0 <= i < |c.progs| ==> c.progs[i].todo == [] }

  function Outputs(c: Config): seq<string> {
    seq(|c.progs|, i requires 0 <= i < |c.progs| => c.progs[i].out(c.progs[i].seen))
  }

  /** Conflicting calls run in call order. */
  ghost predicate Ordered(lanes: Lanes, fs: seq<Footprint>) {
    forall i: nat, j: nat :: i < j < |fs| && Conflict(fs[i], fs[j]) ==> Before(lanes, i, j)
  }

  /** The interleaving `moves` ends like the calls run one after another. */
  ghost predicate EndsSerially(lanes: Lanes, ps: seq<Prog>, s: Store, moves: seq<nat>, end: Config) {
    IsRun(lanes, Config(ps, s), moves, end) && Done(end) ==>
      end.store == SerialStore(ps, s) && Outputs(end) == SerialOutputs(ps, s)
  }

  /** Whatever the calls do inside their footprints, every complete
      interleaving ends like the serial run. */
  ghost predicate Serializable(lanes: Lanes, fs: seq<Footprint>) {
    forall ps, s, moves, end :: FitsAll(ps, fs) ==> EndsSerially(lanes, ps, s, moves, end)
  }

  // ------------------------------------------------------- serializability

  lemma StepsCommute(p: Prog, q: Prog, f: Footprint, g: Footprint, s: Store)
    requires p.todo != [] && q.todo != [] && Fits(p, f) && Fits(q, g) && !Conflict(f, g)
    ensures StepProg(q, StepStore(p, s)) == StepProg(q, s)
    ensures StepProg(p, StepStore(q, s)) == StepProg(p, s)
    ensures StepStore(q, StepStore(p, s)) == StepStore(p, StepStore(q, s))
  {
    var a, b := Target(p), Target(q);
    assert a in f.touches && b in g.touches;
    if a == b {
      assert a !in f.writes && a !in g.writes;
    }
    assert a != b || (StepStore(p, s) == s && StepStore(q, s) == s);
  }

  lemma {:induction false} StepCommutesFinish(p: Prog, q: Prog, f: Footprint, g: Footprint, s: Store)
    requires p.todo != [] && Fits(p, f) && Fits(q, g) && !Conflict(f, g)
    ensures Finish(q, StepStore(p, s)).0 == Finish(q, s).0
    ensures StepProg(p, Finish(q, s).1) == StepProg(p, s)
    ensures StepStore(p, Finish(q, s).1) == Finish(q, StepStore(p, s)).1
    decreases |q.todo|
  {
    if q.todo != [] {
      StepsCommute(p, q, f, g, s);
      var q1 := StepProg(q, s);
      assert forall k :: 0 <= k < |q1.todo| ==> q1.todo[k] == q.todo[k + 1];
      StepCommutesFinish(p, q1, f, g, StepStore(q, s));
    }
  }

  /** The heart of the matter: a move that no earlier unfinished call conflicts
      with does not change how the serial run ends. */
  lemma {:induction false} MoveKeepsSerial(ps: seq<Prog>, fs: seq<Footprint>, s: Store, j: nat)
    requires FitsAll(ps, fs) && j < |ps| && ps[j].todo != []
    requires forall i :: 0 <= i < j ==> ps[i].todo == [] || !Conflict(fs[i], fs[j])
    ensures var ps1, s1 := ps[j := StepProg(ps[j], s)], StepStore(ps[j], s);
            SerialStore(ps1, s1) == SerialStore(ps, s) && SerialOutputs(ps1, s1) == SerialOutputs(ps, s)
  {
    var ps1, s1 := ps[j := StepProg(ps[j], s)], StepStore(ps[j], s);
    if j > 0 {
      var t := Finish(ps[0], s).1;
      if ps[0].todo != [] {
        assert !Conflict(fs[j], fs[0]);
        StepCommutesFinish(ps[j], ps[0], fs[j], fs[0], s);
      }
      MoveKeepsSerial(ps[1..], fs[1..], t, j - 1);
      assert ps1[1..] == ps[1..][j - 1 := StepProg(ps[j], t)];
    } else {
      assert ps1[1..] == ps[1..];
    }
  }

  lemma {:induction false} DoneIsSerial(c: Config)
    requires Done(c)
    ensures SerialStore(c.progs, c.store) == c.store && SerialOutputs(c.progs, c.store) == Outputs(c)
    decreases |c.progs|
  {
    if c.progs != [] { DoneIsSerial(Config(c.progs[1..], c.store)); }
  }

  lemma {:induction false} RunKeepsSerial(lanes: Lanes, c: Config, fs: seq<Footprint>, moves: seq<nat>, end: Config)
    requires FitsAll(c.progs, fs) && Ordered(lanes, fs) && IsRun(lanes, c, moves, end)
    ensures SerialStore(end.progs, end.store) == SerialStore(c.progs, c.store)
    ensures SerialOutputs(end.progs, end.store) == SerialOutputs(c.progs, c.store)
    decreases |moves|
  {
    if moves != [] {
      var j := moves[0];
      MoveKeepsSerial(c.progs, fs, c.store, j);
      RunKeepsSerial(lanes, Exec(c, j), fs, moves[1..], end);
    }
  }

  /** Serializability: ordering the conflicting pairs is enough... */
  lemma OrderedIsSerializable(lanes: Lanes, fs: seq<Footprint>)
    requires Ordered(lanes, fs)
    ensures Serializable(lanes, fs)
  {
    forall ps, s, moves, end | FitsAll(ps, fs) ensures EndsSerially(lanes, ps, s, moves, end) {
      if IsRun(lanes, Config(ps, s), moves, end) && Done(end) {
        RunKeepsSerial(lanes, Config(ps, s), fs, moves, end);
        DoneIsSerial(end);
      }
    }
  }

  // ---- ... and it is also necessary: the witnesses are two one-step calls.

  function Idle(): Prog { Prog([], [], (h: History) => "") }

  function Writer(p: Path): Prog {
    Prog([Step((h: History) => p, (h: History, d: Data) => Some("new"))], [], (h: History) => "")
  }

  function Reader(p: Path): Prog {
    Prog([Step((h: History) => p, (h: History, d: Data) => d)], [],
         (h: History) => if |h| == 1 && h[0].None? then "absent" else "present")
  }

  function Witness(n: nat, i: nat, j: nat, p: Prog, q: Prog): (ps: seq<Prog>)
    ensures |ps| == n
    ensures forall k :: 0 <= k < n ==> ps[k] == if k == i then p else if k == j then q else Idle()
  {
    seq(n, k => if k == i then p else if k == j then q else Idle())
  }

  lemma {:induction false} SerialOfWitness(ps: seq<Prog>, s: Store, k: nat)
    requires k <= |ps| && forall m :: 0 <= m < k ==> ps[m].todo == []
    ensures SerialStore(ps, s) == SerialStore(ps[k..], s)
    ensures SerialOutputs(ps, s)[k..] == SerialOutputs(ps[k..], s)
  {
    if k > 0 {
      SerialOfWitness(ps[1..], s, k - 1);
      assert ps[1..][k - 1..] == ps[k..];
      assert SerialOutputs(ps, s)[k..] == SerialOutputs(ps[1..], s)[k - 1..];
    }
  }

  /** Running the later of two unordered calls first is a legal interleaving. */
  lemma SwappedRun(lanes: Lanes, n: nat, i: nat, j: nat, p: Prog, q: Prog) returns (end: Config)
    requires i < j < n && Schedules(lanes, n) && !Before(lanes, i, j)
    requires |p.todo| == |q.todo| == 1
    ensures var c := Config(Witness(n, i, j, p, q), map[]);
            |end.progs| == n && IsRun(lanes, c, [j, i], end) && Done(end)
            && end.progs[i] == StepProg(p, StepStore(q, map[]))
            && end.progs[j] == StepProg(q, map[])
  {
    var c := Config(Witness(n, i, j, p, q), map[]);
    assert Enabled(lanes, c, j);
    var c1 := Exec(c, j);
    assert Enabled(lanes, c1, i);
    end := Exec(c1, i);
    assert [j, i][1..] == [i] && [i][1..] == [];
    assert IsRun(lanes, end, [], end);
    assert IsRun(lanes, c1, [i], end);
  }

  lemma WitnessOutputs(n: nat, i: nat, j: nat, p: Prog, q: Prog)
    requires i < j < n
    ensures var os := SerialOutputs(Witness(n, i, j, p, q), map[]);
            os[i] == Finish(p, map[]).0 && os[j] == Finish(q, Finish(p, map[]).1).0
  {
    var ps := Witness(n, i, j, p, q);
    var os := SerialOutputs(ps, map[]);
    SerialOfWitness(ps, map[], i);
    assert os[i] == os[i..][0];
    var s1 := Finish(p, map[]).1;
    var after := ps[i + 1..];
    assert ps[i..][1..] == after;
    assert os[i..][1..] == SerialOutputs(after, s1);
    SerialOfWitness(after, s1, j - i - 1);
    assert after[j - i - 1..][0] == q;
    assert os[j] == os[i..][1..][j - i - 1] == SerialOutputs(after, s1)[j - i - 1..][0];
  }

  /** One of the two calls reads what the other writes, and sees the difference. */
  lemma UnorderedIsNotSerializable(lanes: Lanes, fs: seq<Footprint>, i: nat, j: nat)
    requires i < j < |fs| && Schedules(lanes, |fs|) && !Before(lanes, i, j) && Conflict(fs[i], fs[j])
    requires forall k :: 0 <= k < |fs| ==> fs[k].writes <= fs[k].touches
    ensures !Serializable(lanes, fs)
  {
    var a: Path :| a in fs[i].touches && a in fs[j].touches && (a in fs[i].writes || a in fs[j].writes);
    if a in fs[i].writes {
      WitnessFits(fs, i, j, Writer(a), Reader(a));
      WriteThenRead(lanes, fs, i, j, a);
    } else {
      WitnessFits(fs, i, j, Reader(a), Writer(a));
      ReadThenWrite(lanes, fs, i, j, a);
    }
  }

  lemma WitnessFits(fs: seq<Footprint>, i: nat, j: nat, p: Prog, q: Prog)
    requires i < j < |fs| && Fits(p, fs[i]) && Fits(q, fs[j])
    requires forall k :: 0 <= k < |fs| ==> fs[k].writes <= fs[k].touches
    ensures FitsAll(Witness(|fs|, i, j, p, q), fs)
  {
  }

  /** The later call reads the path before the earlier one has written it. */
  lemma WriteThenRead(lanes: Lanes, fs: seq<Footprint>, i: nat, j: nat, a: Path)
    requires i < j < |fs| && Schedules(lanes, |fs|) && !Before(lanes, i, j)
    requires FitsAll(Witness(|fs|, i, j, Writer(a), Reader(a)), fs)
    ensures !Serializable(lanes, fs)
  {
    var ps := Witness(|fs|, i, j, Writer(a), Reader(a));
    var end := SwappedRun(lanes, |fs|, i, j, Writer(a), Reader(a));
    WitnessOutputs(|fs|, i, j, Writer(a), Reader(a));
    assert Outputs(end)[j] == "absent" && SerialOutputs(ps, map[])[j] == "present";
    assert !EndsSerially(lanes, ps, map[], [j, i], end);
  }

  /** The earlier call reads the path after the later one has written it. */
  lemma ReadThenWrite(lanes: Lanes, fs: seq<Footprint>, i: nat, j: nat, a: Path)
    requires i < j < |fs| && Schedules(lanes, |fs|) && !Before(lanes, i, j)
    requires FitsAll(Witness(|fs|, i, j, Reader(a), Writer(a)), fs)
    ensures !Serializable(lanes, fs)
  {
    var ps := Witness(|fs|, i, j, Reader(a), Writer(a));
    var end := SwappedRun(lanes, |fs|, i, j, Reader(a), Writer(a));
    WitnessOutputs(|fs|, i, j, Reader(a), Writer(a));
    assert Outputs(end)[i] == "present" && SerialOutputs(ps, map[])[i] == "absent";
    assert !EndsSerially(lanes, ps, map[], [j, i], end);
  }

  /** Exactly when a schedule is serializable for every behaviour of its calls. */
  lemma SerializableIffOrdered(lanes: Lanes, fs: seq<Footprint>)
    requires Schedules(lanes, |fs|)
    requires forall k :: 0 <= k < |fs| ==> fs[k].writes <= fs[k].touches
    ensures Serializable(lanes, fs) <==> Ordered(lanes, fs)
  {
    if Ordered(lanes, fs) {
      OrderedIsSerializable(lanes, fs);
    } else {
      var i: nat, j: nat :| i < j < |fs| && Conflict(fs[i], fs[j]) && !Before(lanes, i, j);
      UnorderedIsNotSerializable(lanes, fs, i, j);
    }
  }
}
