/**
 * `ToposGenerator`, `PhaseIdGenerator` and the parity functions (arch/contract/event/next.py):
 * bit-packed identifiers, and what whole runs of the generators guarantee.
 */
module IdGenerators {
  import opened Wrappers
  import opened Bits

  const EPOCH_MS := 1767225600000
  const TIME_RANGE := 0x200_0000_0000        // 41 bits
  const SEQUENCES := 0x1000                  // 12 bits
  const TOLERANCE_MS := 5

  // --- Topos identifiers: time 41 | datacenter 5 | worker 5 | sequence 12 --------------------------------

  datatype ToposFields = ToposFields(timestamp: int, datacenter: int, worker: int, sequence: int)

  predicate FieldsFit(datacenter: int, worker: int, sequence: int) {
    0 <= datacenter < 32 && 0 <= worker < 32 && 0 <= sequence < SEQUENCES
  }

  function Pack(timestamp: int, datacenter: int, worker: int, sequence: int): int {
    (timestamp - EPOCH_MS) % TIME_RANGE * 0x40_0000 + datacenter * 0x2_0000 + worker * 0x1000 + sequence
  }

  /** `parse_id`. */
  function ParseId(id: int): ToposFields {
    ToposFields(id / 0x40_0000 % TIME_RANGE + EPOCH_MS, id / 0x2_0000 % 32, id / 0x1000 % 32, id % SEQUENCES)
  }

  /** The expression of `generate`, bit for bit. */
  function PackBits(timestamp: int, datacenter: nat, worker: nat, sequence: nat): nat {
    Or(Or(Or(Shl(And(timestamp - EPOCH_MS, 0x1FF_FFFF_FFFF), 22), Shl(datacenter, 17)), Shl(worker, 12)), sequence)
  }

  /** The expressions of `parse_id`, bit for bit. */
  function ParseBits(id: int): ToposFields {
    ToposFields(And(Shr(id, 22), 0x1FF_FFFF_FFFF) + EPOCH_MS, And(Shr(id, 17), 0x1F), And(Shr(id, 12), 0x1F),
                And(id, 0xFFF))
  }

  lemma Powers()
    ensures Pow2(1) == 2 && Pow2(5) == 32 && Pow2(7) == 128 && Pow2(11) == 0x800 && Pow2(12) == 0x1000
    ensures Pow2(17) == 0x2_0000 && Pow2(22) == 0x40_0000 && Pow2(23) == 0x80_0000 && Pow2(24) == 0x100_0000
    ensures Pow2(31) == 0x8000_0000 && Pow2(32) == 0x1_0000_0000 && Pow2(41) == TIME_RANGE
  {
    assert Pow2(8) == 256;
    assert Pow2(16) == 65536;
    assert Pow2(24) == 0x100_0000;
    assert Pow2(32) == 0x1_0000_0000;
    assert Pow2(40) == 0x100_0000_0000;
  }

  /** Packing by shift and or is the sum of the shifted fields, because no two of them overlap. */
  lemma {:induction false} PackBitsIsPack(timestamp: int, datacenter: nat, worker: nat, sequence: nat)
    requires FieldsFit(datacenter, worker, sequence)
    ensures PackBits(timestamp, datacenter, worker, sequence) == Pack(timestamp, datacenter, worker, sequence)
  {
    Powers();
    MaskIsMod(timestamp - EPOCH_MS, 41);
    OrThree((timestamp - EPOCH_MS) % TIME_RANGE, datacenter, worker, sequence);
  }

  lemma {:induction false} OrThree(time: nat, datacenter: nat, worker: nat, sequence: nat)
    requires datacenter < Pow2(5) && worker < Pow2(5) && sequence < Pow2(12)
    ensures Or(Or(Or(Shl(time, 22), Shl(datacenter, 17)), Shl(worker, 12)), sequence)
         == ((time * 32 + datacenter) * 32 + worker) * 0x1000 + sequence
  {
    Powers();
    OrField(time, 5, datacenter, 17);
    OrField(time * Pow2(5) + datacenter, 5, worker, 12);
    OrIsSum((time * Pow2(5) + datacenter) * Pow2(5) + worker, 12, sequence);
  }

  /** Parsing by shift and mask is quotient and remainder. */
  lemma {:induction false} ParseBitsIsParse(id: int)
    ensures ParseBits(id) == ParseId(id)
  {
    Powers();
    MaskIsMod(Shr(id, 22), 41);
    MaskIsMod(Shr(id, 17), 5);
    MaskIsMod(Shr(id, 12), 5);
    MaskIsMod(id, 12);
  }

  predicate InTimeRange(timestamp: int) {
    EPOCH_MS <= timestamp < EPOCH_MS + TIME_RANGE
  }

  lemma {:induction false} SplitId(id: int, high: int, datacenter: int, worker: int, sequence: int)
    requires FieldsFit(datacenter, worker, sequence)
    requires id == high * 0x40_0000 + datacenter * 0x2_0000 + worker * 0x1000 + sequence
    ensures id / 0x40_0000 == high && id / 0x2_0000 % 32 == datacenter && id / 0x1000 % 32 == worker &&
            id % 0x1000 == sequence
  {
    assert id / 0x1000 == high * 0x400 + datacenter * 32 + worker;
    assert id / 0x2_0000 == high * 32 + datacenter;
  }

  /** `parse_id` recovers every field of what `generate` packs, the time exactly when it lies in the 41-bit range. */
  lemma {:induction false} ParseInvertsBits(timestamp: int, datacenter: nat, worker: nat, sequence: nat)
    requires FieldsFit(datacenter, worker, sequence)
    ensures var f := ParseBits(PackBits(timestamp, datacenter, worker, sequence));
            && f.datacenter == datacenter && f.worker == worker && f.sequence == sequence
            && (f.timestamp == timestamp <==> InTimeRange(timestamp))
  {
    PackBitsIsPack(timestamp, datacenter, worker, sequence);
    ParseBitsIsParse(Pack(timestamp, datacenter, worker, sequence));
    ParseInvertsPack(timestamp, datacenter, worker, sequence);
  }

  lemma {:induction false} ParseInvertsPack(timestamp: int, datacenter: int, worker: int, sequence: int)
    requires FieldsFit(datacenter, worker, sequence)
    ensures var f := ParseId(Pack(timestamp, datacenter, worker, sequence));
            && f.datacenter == datacenter && f.worker == worker && f.sequence == sequence
            && (f.timestamp == timestamp <==> InTimeRange(timestamp))
  {
    SplitId(Pack(timestamp, datacenter, worker, sequence), (timestamp - EPOCH_MS) % TIME_RANGE,
            datacenter, worker, sequence);
  }

  /** Generators with different (datacenter, worker) never produce the same identifier, whatever their clocks do. */
  lemma {:induction false} GeneratorsNeverCollide(t1: int, dc1: int, w1: int, s1: int, t2: int, dc2: int, w2: int,
                                                  s2: int)
    requires FieldsFit(dc1, w1, s1) && FieldsFit(dc2, w2, s2) && (dc1, w1) != (dc2, w2)
    ensures Pack(t1, dc1, w1, s1) != Pack(t2, dc2, w2, s2)
  {
    ParseInvertsPack(t1, dc1, w1, s1);
    ParseInvertsPack(t2, dc2, w2, s2);
  }

  // --- Runs of one generator --------------------------------------------------------------------------------

  datatype Topos = Topos(last: int, sequence: int)

  const FRESH := Topos(-1, 0)

  /** The readings of one call: on entry, after the short sleep, and while waiting for the next millisecond. */
  datatype Readings = Readings(first: int, slept: int, waiting: seq<int>)

  datatype Outcome = Generated(next: Topos) | Refused | StillWaiting

  /** The timestamp a call works with: None when the clock is more than 5 ms behind. */
  function Effective(s: Topos, r: Readings): Option<int> {
    if r.first >= s.last then Some(r.first)
    else if s.last - r.first <= TOLERANCE_MS then Some(r.slept)
    else None
  }

  function FirstAfter(waiting: seq<int>, last: int): Option<int> {
    if waiting == [] then None else if waiting[0] > last then Some(waiting[0]) else FirstAfter(waiting[1..], last)
  }

  function Generate(s: Topos, r: Readings): Outcome {
    match Effective(s, r)
    case None => Refused
    case Some(t) =>
      if t != s.last then Generated(Topos(t, 0))
      else if (s.sequence + 1) % SEQUENCES != 0 then Generated(Topos(t, (s.sequence + 1) % SEQUENCES))
      else
        match FirstAfter(r.waiting, s.last)
        case Some(later) => Generated(Topos(later, 0))
        case None => StillWaiting
  }

  function IdOf(s: Topos, datacenter: int, worker: int): int {
    Pack(s.last, datacenter, worker, s.sequence)
  }

  predicate Sound(s: Topos) {
    0 <= s.sequence < SEQUENCES
  }

  lemma {:induction false} FirstAfterLater(waiting: seq<int>, last: int)
    requires FirstAfter(waiting, last).Some?
    ensures FirstAfter(waiting, last).value > last
  {
    if waiting[0] <= last { FirstAfterLater(waiting[1..], last); }
  }

  lemma {:induction false} PackOrder(t1: int, s1: int, t2: int, s2: int, datacenter: int, worker: int)
    requires FieldsFit(datacenter, worker, s1) && FieldsFit(datacenter, worker, s2) && InTimeRange(t1) &&
             InTimeRange(t2)
    ensures Pack(t1, datacenter, worker, s1) < Pack(t2, datacenter, worker, s2) <==> t1 < t2 || (t1 == t2 && s1 < s2)
  {
    assert (t1 - EPOCH_MS) % TIME_RANGE == t1 - EPOCH_MS && (t2 - EPOCH_MS) % TIME_RANGE == t2 - EPOCH_MS;
    var low := datacenter * 0x2_0000 + worker * 0x1000;
    assert 0 <= low <= 0x40_0000 - 0x1000;
  }

  /** One call: within range, the new identifier exceeds the last exactly when the clock is not behind after the
    * sleep. */
  lemma {:induction false} NextIsLargerIff(s: Topos, r: Readings, datacenter: int, worker: int)
    requires Sound(s) && FieldsFit(datacenter, worker, s.sequence) && Generate(s, r).Generated?
    requires InTimeRange(s.last) && InTimeRange(Generate(s, r).next.last)
    ensures Sound(Generate(s, r).next)
    ensures IdOf(s, datacenter, worker) < IdOf(Generate(s, r).next, datacenter, worker) <==>
            Effective(s, r).value >= s.last
  {
    var n := Generate(s, r).next;
    if Effective(s, r).value == s.last && n.sequence == 0 { FirstAfterLater(r.waiting, s.last); }
    PackOrder(s.last, s.sequence, n.last, n.sequence, datacenter, worker);
  }

  /** The states after each accepted call; a refused call raises and changes nothing, a waiting call never returns. */
  function Run(s: Topos, calls: seq<Readings>): seq<Topos>
    decreases |calls|
  {
    if calls == [] then []
    else
      match Generate(s, calls[0])
      case Generated(n) => [n] + Run(n, calls[1..])
      case Refused => Run(s, calls[1..])
      case StillWaiting => []
  }

  /** At every accepted call, the clock was not behind the last timestamp after the sleep. */
  predicate NeverBehind(s: Topos, calls: seq<Readings>)
    decreases |calls|
  {
    if calls == [] then true
    else
      match Generate(s, calls[0])
      case Generated(n) => Effective(s, calls[0]).value >= s.last && NeverBehind(n, calls[1..])
      case Refused => NeverBehind(s, calls[1..])
      case StillWaiting => true
  }

  predicate AllInRange(states: seq<Topos>) {
    forall i :: 0 <= i < |states| ==> InTimeRange(states[i].last)
  }

  function Ids(states: seq<Topos>, datacenter: int, worker: int): (r: seq<int>)
    ensures |r| == |states| && forall i :: 0 <= i < |r| ==> r[i] == IdOf(states[i], datacenter, worker)
  {
    seq(|states|, i requires 0 <= i < |states| => IdOf(states[i], datacenter, worker))
  }

  predicate Increasing(ids: seq<int>) {
    forall i, j :: 0 <= i < j < |ids| ==> ids[i] < ids[j]
  }

  lemma {:induction false} IncreasingCons(x: int, ids: seq<int>)
    ensures Increasing([x] + ids) <==> Increasing(ids) && (ids != [] ==> x < ids[0])
  {
    var all := [x] + ids;
    if Increasing(all) {
      forall i, j | 0 <= i < j < |ids| ensures ids[i] < ids[j] { assert all[i + 1] < all[j + 1]; }
      if ids != [] { assert all[0] < all[1]; }
    }
    if Increasing(ids) && (ids != [] ==> x < ids[0]) {
      forall i, j | 0 <= i < j < |all| ensures all[i] < all[j] {
        if i == 0 && j > 1 { assert ids[0] < ids[j - 1]; }
      }
    }
  }

  /**
   * Over every run within the 41-bit range, the identifiers (after the one the state stands for)
   * are strictly increasing if and only if no accepted call found the clock behind after its sleep.
   */
  lemma {:induction false} RunIncreasingIff(s: Topos, calls: seq<Readings>, datacenter: int, worker: int)
    requires Sound(s) && FieldsFit(datacenter, worker, s.sequence) && AllInRange([s] + Run(s, calls))
    ensures Increasing(Ids([s] + Run(s, calls), datacenter, worker)) <==> NeverBehind(s, calls)
    decreases |calls|
  {
    if calls == [] || Generate(s, calls[0]).StillWaiting? {
    } else if Generate(s, calls[0]).Refused? {
      RunIncreasingIff(s, calls[1..], datacenter, worker);
    } else {
      var n := Generate(s, calls[0]).next;
      RangeCons(s, [n] + Run(n, calls[1..]));
      NextIsLargerIff(s, calls[0], datacenter, worker);
      RunIncreasingIff(n, calls[1..], datacenter, worker);
      IdsCons(s, [n] + Run(n, calls[1..]), datacenter, worker);
      IncreasingCons(IdOf(s, datacenter, worker), Ids([n] + Run(n, calls[1..]), datacenter, worker));
    }
  }

  lemma {:induction false} IdsCons(s: Topos, rest: seq<Topos>, datacenter: int, worker: int)
    ensures Ids([s] + rest, datacenter, worker) == [IdOf(s, datacenter, worker)] + Ids(rest, datacenter, worker)
  {
  }

  lemma {:induction false} RangeCons(s: Topos, rest: seq<Topos>)
    requires AllInRange([s] + rest)
    ensures InTimeRange(s.last) && AllInRange(rest) && (rest != [] ==> InTimeRange(rest[0].last))
  {
    var all := [s] + rest;
    assert all[0] == s;
    forall i | 0 <= i < |rest| ensures InTimeRange(rest[i].last) { assert all[i + 1] == rest[i]; }
  }

  /** The same from a new generator: its first identifier has no predecessor, and its first clock is never behind. */
  lemma {:induction false} FreshRunIncreasingIff(calls: seq<Readings>, datacenter: int, worker: int)
    requires FieldsFit(datacenter, worker, 0) && AllInRange(Run(FRESH, calls))
    ensures Increasing(Ids(Run(FRESH, calls), datacenter, worker)) <==> NeverBehind(FRESH, calls)
    decreases |calls|
  {
    if calls != [] {
      match Generate(FRESH, calls[0])
      case Generated(n) =>
        assert Run(FRESH, calls)[0] == n;
        assert InTimeRange(n.last);
        RunIncreasingIff(n, calls[1..], datacenter, worker);
      case Refused => FreshRunIncreasingIff(calls[1..], datacenter, worker);
      case StillWaiting =>
    }
  }

  /** A clock still one millisecond behind after the sleep: the third identifier repeats the first. */
  lemma ClockBehindRepeats()
    ensures var t := EPOCH_MS;
            var calls := [Readings(t, 0, []), Readings(t + 1, 0, []), Readings(t, t, [])];
            var ids := Ids(Run(FRESH, calls), 1, 1);
            |ids| == 3 && ids[2] == ids[0]
  {
    var t := EPOCH_MS;
    var calls := [Readings(t, 0, []), Readings(t + 1, 0, []), Readings(t, t, [])];
    RunOne(FRESH, calls[0], [calls[1], calls[2]]);
    RunOne(Topos(t, 0), calls[1], [calls[2]]);
    RunOne(Topos(t + 1, 0), calls[2], []);
    assert calls == [calls[0]] + [calls[1], calls[2]] && [calls[1], calls[2]] == [calls[1]] + [calls[2]];
    assert [calls[2]] == [calls[2]] + [];
  }

  lemma {:induction false} RunOne(s: Topos, r: Readings, more: seq<Readings>)
    requires Generate(s, r).Generated?
    ensures Run(s, [r] + more) == [Generate(s, r).next] + Run(Generate(s, r).next, more)
  {
    assert ([r] + more)[1..] == more;
  }

  /** `(self.sequence + 1) & 0xFFF` */
  method NextSequence(sequence: nat) returns (r: nat)
    ensures r == (sequence + 1) % SEQUENCES
  {
    Powers();
    MaskIsMod(sequence + 1, 12);
    return And(sequence + 1, 0xFFF);
  }

  /** The shift-and-or expression at the end of `generate`. */
  method PackId(timestamp: int, datacenter: nat, worker: nat, sequence: nat) returns (id: nat)
    requires FieldsFit(datacenter, worker, sequence)
    ensures id == Pack(timestamp, datacenter, worker, sequence)
  {
    PackBitsIsPack(timestamp, datacenter, worker, sequence);
    return PackBits(timestamp, datacenter, worker, sequence);
  }

  /** `parse_id` computes its fields by shift and mask. */
  method ParseIdBits(id: int) returns (fields: ToposFields)
    ensures fields == ParseId(id)
  {
    ParseBitsIsParse(id);
    return ParseBits(id);
  }

  datatype GenerateResult = Id(id: int) | ClockBehind(offset: int) | NoReading

  class ToposGenerator {
    const workerId: int
    const datacenterId: int
    var sequence: int
    var lastTimestamp: int

    predicate Valid()
      reads this
    {
      FieldsFit(datacenterId, workerId, sequence)
    }

    function State(): Topos
      reads this
    {
      Topos(lastTimestamp, sequence)
    }

    constructor (vertexId: int, manifoldId: int)
      ensures Valid() && State() == FRESH && workerId == vertexId % 32 && datacenterId == manifoldId % 32
    {
      workerId, datacenterId := And(vertexId, 0x1F), And(manifoldId, 0x1F);
      sequence, lastTimestamp := 0, -1;
      new;
      Powers();
      MaskIsMod(vertexId, 5);
      MaskIsMod(manifoldId, 5);
    }

    /** `generate`; NoReading stands for a call that still waits for the next millisecond. */
    method NextId(r: Readings) returns (result: GenerateResult)
      requires Valid()
      modifies this`sequence, this`lastTimestamp
      ensures Valid()
      ensures match Generate(old(State()), r)
              case Generated(n) => State() == n && result == Id(IdOf(n, datacenterId, workerId))
              case Refused => State() == old(State()) && result == ClockBehind(old(lastTimestamp) - r.first)
              case StillWaiting => result == NoReading
      ensures result.Id? && InTimeRange(lastTimestamp) ==>
                ParseId(result.id) == ToposFields(lastTimestamp, datacenterId, workerId, sequence)
    {
      var timestamp := r.first;
      if timestamp < lastTimestamp {
        var offset := lastTimestamp - timestamp;
        if offset > TOLERANCE_MS { return ClockBehind(offset); }
        timestamp := r.slept;
      }
      if timestamp == lastTimestamp {
        sequence := NextSequence(sequence);
        if sequence == 0 {
          var i := 0;
          while timestamp <= lastTimestamp
            invariant 0 <= i <= |r.waiting|
            invariant timestamp <= lastTimestamp ==>
                      FirstAfter(r.waiting, lastTimestamp) == FirstAfter(r.waiting[i..], lastTimestamp)
            invariant timestamp > lastTimestamp ==> FirstAfter(r.waiting, lastTimestamp) == Some(timestamp)
            decreases |r.waiting| - i, lastTimestamp - timestamp
          {
            if i == |r.waiting| { return NoReading; }
            timestamp := r.waiting[i];
            i := i + 1;
          }
        }
      } else {
        sequence := 0;
      }
      lastTimestamp := timestamp;
      ParseInvertsPack(timestamp, datacenterId, workerId, sequence);
      var id := PackId(timestamp, datacenterId, workerId, sequence);
      return Id(id);
    }
  }

  // --- Phase identifiers: epoch 1 | tick 7 | sign 1, magnitude 11 | sign 1, magnitude 11 ----------------------

  const SATURATION := 0x7FF

  datatype PhaseFields = PhaseFields(epoch: int, tick: int, dTopo: int, dPress: int)

  function Abs(x: int): nat {
    if x < 0 then -x else x
  }

  function Magnitude(d: int): nat {
    if Abs(d) < SATURATION then Abs(d) else SATURATION
  }

  function Sign(d: int): nat {
    if d >= 0 then 1 else 0
  }

  /** The difference a signed 11-bit magnitude can carry. */
  function Clamp(d: int): int {
    if d > SATURATION then SATURATION else if d < -SATURATION then -SATURATION else d
  }

  function PackPhase(epoch: int, tick: int, dTopo: int, dPress: int): int {
    (epoch * 0x8000_0000 + tick * 0x100_0000 + Sign(dTopo) * 0x80_0000 + Magnitude(dTopo) * 0x1000
     + Sign(dPress) * 0x800 + Magnitude(dPress)) % 0x1_0000_0000
  }

  /** `parse_phase_id`. */
  function ParsePhase(id: int): PhaseFields {
    var topo, press := id / 0x1000 % 0x800, id % 0x800;
    PhaseFields(id / 0x8000_0000 % 2, id / 0x100_0000 % 128,
                if id / 0x80_0000 % 2 == 1 then topo else -topo,
                if id / 0x800 % 2 == 1 then press else -press)
  }

  /** The expression of `generate`, bit for bit. */
  function PackPhaseBits(epoch: nat, tick: nat, s1: nat, m1: nat, s2: nat, m2: nat): nat {
    And(OrFields(epoch, tick, s1, m1, s2, m2), 0xFFFF_FFFF)
  }

  function OrFields(epoch: nat, tick: nat, s1: nat, m1: nat, s2: nat, m2: nat): nat {
    Or(Or(Or(Or(Or(Shl(epoch, 31), Shl(tick, 24)), Shl(s1, 23)), Shl(m1, 12)), Shl(s2, 11)), m2)
  }

  /** The expressions of `parse_phase_id`, bit for bit. */
  function ParsePhaseBits(id: int): PhaseFields {
    var topo, press := And(Shr(id, 12), 0x7FF), And(id, 0x7FF);
    PhaseFields(And(Shr(id, 31), 1), And(Shr(id, 24), 0x7F),
                if And(Shr(id, 23), 1) == 1 then topo as int else -(topo as int),
                if And(Shr(id, 11), 1) == 1 then press as int else -(press as int))
  }

  /** Packing by shift and or is the sum of the shifted fields, because no two of them overlap. */
  lemma {:induction false} PhaseBitsIsPack(epoch: nat, tick: nat, dTopo: int, dPress: int)
    requires epoch < 2 && tick < 128
    ensures PackPhaseBits(epoch, tick, Sign(dTopo), Magnitude(dTopo), Sign(dPress), Magnitude(dPress))
         == PackPhase(epoch, tick, dTopo, dPress)
  {
    var s1, m1, s2, m2 := Sign(dTopo), Magnitude(dTopo), Sign(dPress), Magnitude(dPress);
    PhaseBitsSum(epoch, tick, s1, m1, s2, m2);
    SmallMod(epoch * 0x8000_0000 + tick * 0x100_0000 + s1 * 0x80_0000 + m1 * 0x1000 + s2 * 0x800 + m2, 0x1_0000_0000);
  }

  lemma {:induction false} PhaseBitsSum(epoch: nat, tick: nat, s1: nat, m1: nat, s2: nat, m2: nat)
    requires epoch < 2 && tick < 128 && s1 < 2 && m1 < 0x800 && s2 < 2 && m2 < 0x800
    ensures PackPhaseBits(epoch, tick, s1, m1, s2, m2)
         == epoch * 0x8000_0000 + tick * 0x100_0000 + s1 * 0x80_0000 + m1 * 0x1000 + s2 * 0x800 + m2
  {
    Powers();
    OrFive(epoch, tick, s1, m1, s2, m2);
    MaskKeeps(OrFields(epoch, tick, s1, m1, s2, m2), 32, 0xFFFF_FFFF);
  }

  lemma {:induction false} OrFive(epoch: nat, tick: nat, s1: nat, m1: nat, s2: nat, m2: nat)
    requires tick < Pow2(7) && s1 < Pow2(1) && m1 < Pow2(11) && s2 < Pow2(1) && m2 < Pow2(11)
    ensures OrFields(epoch, tick, s1, m1, s2, m2)
         == epoch * 0x8000_0000 + tick * 0x100_0000 + s1 * 0x80_0000 + m1 * 0x1000 + s2 * 0x800 + m2
  {
    OrHigh(epoch, tick, s1);
    OrLow((epoch * 128 + tick) * 2 + s1, m1, s2, m2);
    Horner(epoch, tick, s1, m1, s2, m2);
  }

  lemma Horner(epoch: nat, tick: nat, s1: nat, m1: nat, s2: nat, m2: nat)
    ensures ((((epoch * 128 + tick) * 2 + s1) * 0x800 + m1) * 2 + s2) * 0x800 + m2
         == epoch * 0x8000_0000 + tick * 0x100_0000 + s1 * 0x80_0000 + m1 * 0x1000 + s2 * 0x800 + m2
  {
  }

  lemma {:induction false} OrHigh(epoch: nat, tick: nat, s1: nat)
    requires tick < Pow2(7) && s1 < Pow2(1)
    ensures Or(Or(Shl(epoch, 31), Shl(tick, 24)), Shl(s1, 23)) == Shl((epoch * 128 + tick) * 2 + s1, 23)
  {
    Powers();
    OrField(epoch, 7, tick, 24);
    OrField(epoch * Pow2(7) + tick, 1, s1, 23);
  }

  lemma {:induction false} OrLow(high: nat, m1: nat, s2: nat, m2: nat)
    requires m1 < Pow2(11) && s2 < Pow2(1) && m2 < Pow2(11)
    ensures Or(Or(Or(Shl(high, 23), Shl(m1, 12)), Shl(s2, 11)), m2) == ((high * 0x800 + m1) * 2 + s2) * 0x800 + m2
  {
    Powers();
    OrField(high, 11, m1, 12);
    OrField(high * Pow2(11) + m1, 1, s2, 11);
    OrIsSum((high * Pow2(11) + m1) * Pow2(1) + s2, 11, m2);
  }

  lemma {:induction false} ParsePhaseBitsIsParse(id: int)
    ensures ParsePhaseBits(id) == ParsePhase(id)
  {
    Powers();
    MaskIsMod(Shr(id, 12), 11);
    MaskIsMod(id, 11);
    MaskIsMod(Shr(id, 31), 1);
    MaskIsMod(Shr(id, 24), 7);
    MaskIsMod(Shr(id, 23), 1);
    MaskIsMod(Shr(id, 11), 1);
  }

  /** Decoding what was packed gives back epoch bit, tick and both differences, clamped to 2047 either way. */
  lemma {:induction false} ParsePhaseInvertsBits(epoch: nat, tick: nat, dTopo: int, dPress: int)
    requires epoch < 2 && tick < 128
    ensures ParsePhaseBits(PackPhaseBits(epoch, tick, Sign(dTopo), Magnitude(dTopo), Sign(dPress), Magnitude(dPress)))
         == PhaseFields(epoch, tick, Clamp(dTopo), Clamp(dPress))
  {
    PhaseBitsIsPack(epoch, tick, dTopo, dPress);
    ParsePhaseBitsIsParse(PackPhase(epoch, tick, dTopo, dPress));
    ParsePhaseInvertsPack(epoch, tick, dTopo, dPress);
  }

  lemma {:induction false} SplitPhase(id: int, epoch: int, tick: int, s1: int, m1: int, s2: int, m2: int)
    requires 0 <= epoch < 2 && 0 <= tick < 128 && 0 <= s1 < 2 && 0 <= m1 < 0x800 && 0 <= s2 < 2 && 0 <= m2 < 0x800
    requires id == epoch * 0x8000_0000 + tick * 0x100_0000 + s1 * 0x80_0000 + m1 * 0x1000 + s2 * 0x800 + m2
    ensures 0 <= id < 0x1_0000_0000
    ensures id / 0x8000_0000 % 2 == epoch && id / 0x100_0000 % 128 == tick && id / 0x80_0000 % 2 == s1
    ensures id / 0x1000 % 0x800 == m1 && id / 0x800 % 2 == s2 && id % 0x800 == m2
  {
    assert id / 0x800 == epoch * 0x10_0000 + tick * 0x2000 + s1 * 0x1000 + m1 * 2 + s2;
    assert id / 0x1000 == epoch * 0x8_0000 + tick * 0x1000 + s1 * 0x800 + m1;
    assert id / 0x80_0000 == epoch * 256 + tick * 2 + s1;
    assert id / 0x100_0000 == epoch * 128 + tick;
  }

  /** Decoding gives back the epoch bit, the tick and both differences, clamped to 2047 either way. */
  lemma {:induction false} ParsePhaseInvertsPack(epoch: int, tick: int, dTopo: int, dPress: int)
    requires 0 <= epoch < 2 && 0 <= tick < 128
    ensures ParsePhase(PackPhase(epoch, tick, dTopo, dPress)) == PhaseFields(epoch, tick, Clamp(dTopo), Clamp(dPress))
    ensures 0 <= PackPhase(epoch, tick, dTopo, dPress) < 0x1_0000_0000
  {
    var id := epoch * 0x8000_0000 + tick * 0x100_0000 + Sign(dTopo) * 0x80_0000 + Magnitude(dTopo) * 0x1000
              + Sign(dPress) * 0x800 + Magnitude(dPress);
    SplitPhase(id, epoch, tick, Sign(dTopo), Magnitude(dTopo), Sign(dPress), Magnitude(dPress));
    assert PackPhase(epoch, tick, dTopo, dPress) == id;
    SignedMagnitude(dTopo);
    SignedMagnitude(dPress);
    Reassemble(id, epoch, tick, Sign(dTopo), Magnitude(dTopo), Sign(dPress), Magnitude(dPress));
  }

  lemma SignedMagnitude(d: int)
    ensures Clamp(d) == if Sign(d) == 1 then Magnitude(d) as int else -(Magnitude(d) as int)
  {
  }

  lemma {:induction false} Reassemble(id: int, epoch: int, tick: int, s1: int, m1: int, s2: int, m2: int)
    requires id / 0x8000_0000 % 2 == epoch && id / 0x100_0000 % 128 == tick && id / 0x80_0000 % 2 == s1
    requires id / 0x1000 % 0x800 == m1 && id / 0x800 % 2 == s2 && id % 0x800 == m2
    ensures ParsePhase(id) == PhaseFields(epoch, tick, if s1 == 1 then m1 else -m1, if s2 == 1 then m2 else -m2)
  {
  }

  datatype Phase = Phase(topo: int, press: int, epoch: int, tick: int)

  datatype Signal = Signal(topo: int, press: int, rupture: bool, injectedTick: Option<int>)

  function PhaseStep(s: Phase, x: Signal): Phase {
    Phase(x.topo, x.press, if x.rupture then 1 - s.epoch else s.epoch,
          match x.injectedTick case Some(t) => t % 128 case None => (s.tick + 1) % 128)
  }

  function PhaseId(s: Phase, x: Signal): int {
    PackPhase(PhaseStep(s, x).epoch, PhaseStep(s, x).tick, x.topo - s.topo, x.press - s.press)
  }

  predicate PhaseSound(s: Phase) {
    0 <= s.epoch < 2 && 0 <= s.tick < 128
  }

  function PhaseRun(s: Phase, xs: seq<Signal>): Phase
    decreases |xs|
  {
    if xs == [] then s else PhaseRun(PhaseStep(s, xs[0]), xs[1..])
  }

  function PhaseIds(s: Phase, xs: seq<Signal>): seq<int>
    decreases |xs|
  {
    if xs == [] then [] else [PhaseId(s, xs[0])] + PhaseIds(PhaseStep(s, xs[0]), xs[1..])
  }

  /** What a reader who only sees the identifiers adds up. */
  function DecodedTopo(ids: seq<int>): int {
    if ids == [] then 0 else ParsePhase(ids[0]).dTopo + DecodedTopo(ids[1..])
  }

  function DecodedPress(ids: seq<int>): int {
    if ids == [] then 0 else ParsePhase(ids[0]).dPress + DecodedPress(ids[1..])
  }

  /** What saturation loses of the topo and press differences over a run. */
  function ExcessTopo(s: Phase, xs: seq<Signal>): int
    decreases |xs|
  {
    if xs == [] then 0
    else (xs[0].topo - s.topo) - Clamp(xs[0].topo - s.topo) + ExcessTopo(PhaseStep(s, xs[0]), xs[1..])
  }

  function ExcessPress(s: Phase, xs: seq<Signal>): int
    decreases |xs|
  {
    if xs == [] then 0
    else (xs[0].press - s.press) - Clamp(xs[0].press - s.press) + ExcessPress(PhaseStep(s, xs[0]), xs[1..])
  }

  predicate NeverSaturates(s: Phase, xs: seq<Signal>)
    decreases |xs|
  {
    xs != [] ==>
      && Abs(xs[0].topo - s.topo) <= SATURATION && Abs(xs[0].press - s.press) <= SATURATION
      && NeverSaturates(PhaseStep(s, xs[0]), xs[1..])
  }

  function Ruptures(xs: seq<Signal>): nat {
    if xs == [] then 0 else (if xs[0].rupture then 1 else 0) + Ruptures(xs[1..])
  }

  /**
   * Over every run the decoded differences add up to the last readings less what saturation cut
   * off, so exactly to the last readings when nothing saturates.
   */
  lemma {:induction false} DifferencesTelescope(s: Phase, xs: seq<Signal>)
    requires PhaseSound(s)
    ensures s.topo + DecodedTopo(PhaseIds(s, xs)) + ExcessTopo(s, xs) == PhaseRun(s, xs).topo
    ensures s.press + DecodedPress(PhaseIds(s, xs)) + ExcessPress(s, xs) == PhaseRun(s, xs).press
    ensures NeverSaturates(s, xs) ==> ExcessTopo(s, xs) == 0 && ExcessPress(s, xs) == 0
    decreases |xs|
  {
    if xs != [] {
      var n := PhaseStep(s, xs[0]);
      ParsePhaseInvertsPack(n.epoch, n.tick, xs[0].topo - s.topo, xs[0].press - s.press);
      DifferencesTelescope(n, xs[1..]);
      assert PhaseIds(s, xs)[1..] == PhaseIds(n, xs[1..]);
    }
  }

  lemma {:induction false} RunSnoc(s: Phase, xs: seq<Signal>, x: Signal)
    ensures PhaseRun(s, xs + [x]) == PhaseStep(PhaseRun(s, xs), x)
    ensures PhaseIds(s, xs + [x]) == PhaseIds(s, xs) + [PhaseId(PhaseRun(s, xs), x)]
    decreases |xs|
  {
    if xs == [] {
      assert xs + [x] == [x];
      assert PhaseIds(PhaseStep(s, x), []) == [];
    } else {
      RunSnoc(PhaseStep(s, xs[0]), xs[1..], x);
      assert (xs + [x])[1..] == xs[1..] + [x];
    }
  }

  lemma {:induction false} RupturesSnoc(xs: seq<Signal>, x: Signal)
    ensures Ruptures(xs + [x]) == Ruptures(xs) + (if x.rupture then 1 else 0)
  {
    if xs == [] {
      assert xs + [x] == [x];
    } else {
      RupturesSnoc(xs[1..], x);
      assert (xs + [x])[1..] == xs[1..] + [x];
    }
  }

  /** The epoch of the generator is the parity of all ruptures so far. */
  lemma {:induction false} EpochIsParity(s: Phase, xs: seq<Signal>)
    requires PhaseSound(s)
    ensures PhaseSound(PhaseRun(s, xs)) && PhaseRun(s, xs).epoch == (s.epoch + Ruptures(xs)) % 2
    decreases |xs|
  {
    if xs != [] {
      var m := |xs| - 1;
      EpochIsParity(s, xs[..m]);
      assert xs == xs[..m] + [xs[m]];
      RunSnoc(s, xs[..m], xs[m]);
      RupturesSnoc(xs[..m], xs[m]);
    }
  }

  /**
   * What the identifier of the next signal decodes to, after any run: the parity of all ruptures
   * including its own, and the two differences from the previous readings, clamped.
   */
  lemma {:induction false} DecodedAfterRun(s: Phase, xs: seq<Signal>, x: Signal)
    requires PhaseSound(s)
    ensures |PhaseIds(s, xs + [x])| == |xs| + 1
    ensures var f := ParsePhase(PhaseIds(s, xs + [x])[|xs|]);
            && f.epoch == (s.epoch + Ruptures(xs + [x])) % 2
            && f.dTopo == Clamp(x.topo - PhaseRun(s, xs).topo) && f.dPress == Clamp(x.press - PhaseRun(s, xs).press)
  {
    PhaseIdsLength(s, xs);
    RunSnoc(s, xs, x);
    EpochIsParity(s, xs + [x]);
    EpochIsParity(s, xs);
    var p := PhaseRun(s, xs);
    ParsePhaseInvertsPack(PhaseStep(p, x).epoch, PhaseStep(p, x).tick, x.topo - p.topo, x.press - p.press);
  }

  lemma {:induction false} PhaseIdsLength(s: Phase, xs: seq<Signal>)
    ensures |PhaseIds(s, xs)| == |xs|
    decreases |xs|
  {
    if xs != [] { PhaseIdsLength(PhaseStep(s, xs[0]), xs[1..]); }
  }

  /** `tick & 0x7F` */
  method MaskTick(n: int) returns (tick: int)
    ensures tick == n % 128
  {
    Powers();
    MaskIsMod(n, 7);
    return And(n, 0x7F);
  }

  /** `epoch ^= 1` */
  method FlipEpoch(epoch: nat) returns (flipped: int)
    requires epoch < 2
    ensures flipped == 1 - epoch
  {
    assert Xor(0, 0) == 0;
    return Xor(epoch, 1);
  }

  /** The shift-and-or expression at the end of `generate`. */
  method PackPhaseId(epoch: nat, tick: nat, dTopo: int, dPress: int) returns (id: nat)
    requires epoch < 2 && tick < 128
    ensures id == PackPhase(epoch, tick, dTopo, dPress)
  {
    PhaseBitsIsPack(epoch, tick, dTopo, dPress);
    return PackPhaseBits(epoch, tick, Sign(dTopo), Magnitude(dTopo), Sign(dPress), Magnitude(dPress));
  }

  class PhaseIdGenerator {
    var prevTopo: int
    var prevPress: int
    var epoch: int
    var tick: int

    function State(): Phase
      reads this
    {
      Phase(prevTopo, prevPress, epoch, tick)
    }

    predicate Valid()
      reads this
    {
      PhaseSound(State())
    }

    constructor ()
      ensures Valid() && State() == Phase(0, 0, 0, 0)
    {
      prevTopo, prevPress, epoch, tick := 0, 0, 0, 0;
    }

    /** `generate`. */
    method NextPhaseId(x: Signal) returns (id: int)
      requires Valid()
      modifies this
      ensures Valid() && State() == PhaseStep(old(State()), x) && id == PhaseId(old(State()), x)
      ensures ParsePhase(id) == PhaseFields(epoch, tick, Clamp(x.topo - old(prevTopo)), Clamp(x.press - old(prevPress)))
    {
      if x.rupture { epoch := FlipEpoch(epoch); }
      tick := MaskTick(if x.injectedTick.Some? then x.injectedTick.value else tick + 1);
      var dTopo, dPress := x.topo - prevTopo, x.press - prevPress;
      prevTopo, prevPress := x.topo, x.press;
      ParsePhaseInvertsPack(epoch, tick, dTopo, dPress);
      id := PackPhaseId(epoch, tick, dTopo, dPress);
    }
  }

  // --- Nexus parity ------------------------------------------------------------------------------------------------

  const TWO_32 := 0x1_0000_0000

  function Low32(x: int): nat {
    x % TWO_32
  }

  /** `generate_nexus_id`. */
  function NexusId(toposId: int, phaseId: int): nat {
    Xor(Low32(toposId), Low32(phaseId))
  }

  datatype Missing = NoneMissing | ToposMissing | PhaseMissing | NexusMissing

  datatype Parity = Parity(isValid: bool, recovered: Option<nat>, missing: Missing) | TooFew

  function Low32Of(x: Option<int>): Option<nat> {
    match x case None => None case Some(v) => Some(Low32(v))
  }

  /** `verify_parity`. */
  function VerifyParity(toposId: Option<int>, phaseId: Option<int>, nexusId: Option<int>): Parity {
    match (Low32Of(toposId), Low32Of(phaseId), Low32Of(nexusId))
    case (Some(t), Some(p), Some(n)) => Parity(Xor(t, p) == n, None, NoneMissing)
    case (None, Some(p), Some(n)) => Parity(true, Some(Xor(p, n)), ToposMissing)
    case (Some(t), None, Some(n)) => Parity(true, Some(Xor(t, n)), PhaseMissing)
    case (Some(t), Some(p), None) => Parity(true, Some(Xor(t, p)), NexusMissing)
    case _ => TooFew
  }

  lemma {:induction false} NexusFits(toposId: int, phaseId: int)
    ensures Low32(NexusId(toposId, phaseId)) == NexusId(toposId, phaseId)
  {
    Powers();
    XorBounded(Low32(toposId), Low32(phaseId), 32);
  }

  /** Any two of topos-low32, phase and nexus recover the third, and all three together are valid. */
  lemma {:induction false} AnyTwoRecoverTheThird(toposId: int, phaseId: int)
    ensures var n := NexusId(toposId, phaseId);
            && VerifyParity(None, Some(phaseId), Some(n)) == Parity(true, Some(Low32(toposId)), ToposMissing)
            && VerifyParity(Some(toposId), None, Some(n)) == Parity(true, Some(Low32(phaseId)), PhaseMissing)
            && VerifyParity(Some(toposId), Some(phaseId), None) == Parity(true, Some(n), NexusMissing)
            && VerifyParity(Some(toposId), Some(phaseId), Some(n)) == Parity(true, None, NoneMissing)
  {
    NexusFits(toposId, phaseId);
    XorCancels(Low32(toposId), Low32(phaseId));
  }

  /** Three identifiers check out if and only if each is the one the other two recover: one change is always seen. */
  lemma {:induction false} ValidIffEachRecovered(toposId: int, phaseId: int, nexusId: int)
    ensures var valid := VerifyParity(Some(toposId), Some(phaseId), Some(nexusId)).isValid;
            && (valid <==> VerifyParity(None, Some(phaseId), Some(nexusId)).recovered == Some(Low32(toposId)))
            && (valid <==> VerifyParity(Some(toposId), None, Some(nexusId)).recovered == Some(Low32(phaseId)))
            && (valid <==> VerifyParity(Some(toposId), Some(phaseId), None).recovered == Some(Low32(nexusId)))
  {
    XorCancels(Low32(toposId), Low32(phaseId));
    XorCancels(Low32(toposId), Low32(nexusId));
    XorCancels(Low32(phaseId), Low32(nexusId));
    XorSymmetric(Low32(phaseId), Low32(nexusId));
    XorSymmetric(Low32(toposId), Low32(phaseId));
  }
}
