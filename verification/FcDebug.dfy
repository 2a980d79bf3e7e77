/** The stream arbiter with its packet generator (ip/fejkon_fc_debug/fejkon_fc_debug.sv,
    ip/fejkon_fc_debug/generator.sv).
 */
module FcDebug {

  const COUNTER_LIMIT: nat := 0x1_0000_0000
  // The counter value that asks for packets without end
  const ENDLESS: nat := COUNTER_LIMIT - 1

  datatype Beat = Beat(data: nat, channel: nat, empty: nat, sop: bool, eop: bool)

  const NO_BEAT := Beat(0, 0, 0, false, false)

  // ----- The generator -----

  const GEN_DATA0: nat := 0xbcb5565605060708090a0b0c0d0e0f101112131415161718191a1b1c1d1e1fff
  const GEN_DATA1: nat := 0xbaadc0debaadc0debaadc0debaadc0debaadc0debaadc0debaadc0debc95d5d5

  // Its packet has two beats.
  function GenBeat(idx: nat): Beat
  {
    if idx == 0 then Beat(GEN_DATA0, 0, 0, true, false) else Beat(GEN_DATA1, 0, 0, false, true)
  }

  datatype Gen = Gen(idx: nat, valid: bool, beat: Beat)

  // The index moves first; the output register then takes the beat of the new index.
  function GenStep(g: Gen, ready: bool): Gen
  {
    var idx := if !ready then g.idx else if g.idx == 1 then 0 else g.idx + 1;
    Gen(idx, true, if idx == 0 || idx == 1 then GenBeat(idx) else g.beat.(sop := false, eop := false))
  }

  class Generator {
    var genIdx: nat
    var genValid: bool
    var genBeat: Beat

    function View(): Gen
      reads this
    {
      Gen(genIdx, genValid, genBeat)
    }

    constructor ()
      ensures View() == Gen(0, false, NO_BEAT)
    {
      genIdx, genValid, genBeat := 0, false, NO_BEAT;
    }

    method Clock(reset: bool, ready: bool)
      requires genBeat.channel == 0 && genBeat.empty == 0
      modifies this
      ensures View() == if reset then old(View()).(idx := 0, valid := false) else GenStep(old(View()), ready)
      ensures genBeat.channel == 0 && genBeat.empty == 0
    {
      if reset {
        genValid := false;
        genIdx := 0;
      } else {
        if ready {
          genIdx := genIdx + 1;
          if genIdx == 2 {
            genIdx := 0;
          }
        }
        genValid := true;
        genBeat := Beat(genBeat.data, 0, 0, false, false);
        if genIdx == 0 {
          genBeat := genBeat.(data := GEN_DATA0, sop := true);
        } else if genIdx == 1 {
          genBeat := genBeat.(data := GEN_DATA1, eop := true);
        }
      }
    }
  }

  // ----- The arbiter -----

  // What the block sees at one clock
  datatype Input = Input(valid: bool, beat: Beat, ready: bool, write: bool, address: nat, writeData: nat)

  // A beat the sink has taken, and where it came from
  datatype Out = Out(beat: Beat, generated: bool)

  datatype State = State(
    gen: Gen, inValid: bool, inBeat: Beat, source: bool, enable: nat, decr: bool,
    // history: beats taken from the input stream and by the sink
    taken: seq<Beat>, sent: seq<Out>)

  function OutValid(s: State): bool
  {
    if s.source then s.gen.valid else s.inValid
  }

  function OutBeat(s: State): Beat
  {
    if s.source then s.gen.beat else s.inBeat
  }

  function InReady(s: State, ready: bool): bool
  {
    !s.source && (!s.inValid || ready)
  }

  // The source of the next clock.  It is reconsidered after a last beat and on an idle input.
  function NextSource(s: State, i: Input): bool
  {
    var lastGenerated := s.source && s.gen.valid && s.gen.beat.eop && i.ready;
    var lastInput := !s.source && s.inValid && s.inBeat.eop && i.ready;
    var idle := !s.source && !s.inValid;
    if !(lastGenerated || lastInput || idle) then s.source
    else if i.valid || s.enable == 0 then false
    else s.gen.valid && (!s.source || s.enable != 1)
  }

  function NextEnable(s: State, i: Input): nat
  {
    if i.write && i.address == 0 then i.writeData
    else if s.decr && s.enable != ENDLESS && s.enable != 0 then s.enable - 1
    else s.enable
  }

  function Step(s: State, i: Input): State
  {
    State(
      GenStep(s.gen, s.source && i.ready),
      if InReady(s, i.ready) then i.valid else s.inValid,
      if InReady(s, i.ready) then i.beat else s.inBeat,
      NextSource(s, i),
      NextEnable(s, i),
      s.source && OutBeat(s).sop && OutValid(s) && i.ready,
      if InReady(s, i.ready) && i.valid then s.taken + [i.beat] else s.taken,
      if OutValid(s) && i.ready then s.sent + [Out(OutBeat(s), s.source)] else s.sent)
  }

  class FcDebug {
    const generator: Generator
    var inValid: bool
    var inBeat: Beat
    var sourceGenerator: bool
    var enableGenerator: nat
    var decrGenerator: bool
    ghost var taken: seq<Beat>
    ghost var sent: seq<Out>

    ghost function View(): State
      reads this, generator
    {
      State(generator.View(), inValid, inBeat, sourceGenerator, enableGenerator, decrGenerator, taken, sent)
    }

    ghost predicate Valid()
      reads this, generator
    {
      generator.genBeat.channel == 0 && generator.genBeat.empty == 0
    }

    constructor ()
      ensures fresh(generator) && Valid()
      ensures View() == State(Gen(0, false, NO_BEAT), false, NO_BEAT, false, 0, false, [], [])
    {
      generator := new Generator();
      inValid, inBeat, sourceGenerator := false, NO_BEAT, false;
      enableGenerator, decrGenerator, taken, sent := 0, false, [], [];
    }

    // The combinational outputs
    method Outputs(ready: bool) returns (valid: bool, beat: Beat, inReady: bool)
      ensures valid == OutValid(View()) && beat == OutBeat(View()) && inReady == InReady(View(), ready)
    {
      if sourceGenerator {
        valid := generator.genValid;
        beat := generator.genBeat;
      } else {
        valid := inValid;
        beat := inBeat;
      }
      inReady := !sourceGenerator && (!inValid || ready);
    }

    // Block csr_wr: a write wins over the decrement.
    method NextCounter(i: Input) returns (enable: nat)
      ensures enable == NextEnable(View(), i)
    {
      enable := enableGenerator;
      if decrGenerator && enableGenerator != ENDLESS && enableGenerator != 0 {
        enable := enableGenerator - 1;
      }
      if i.write {
        if i.address == 0 {
          enable := i.writeData;
        }
      }
    }

    // Block arbiter: the input stream has priority.
    method Arbitrate(i: Input) returns (source: bool)
      ensures source == NextSource(View(), i)
    {
      source := sourceGenerator;
      if (generator.genBeat.eop && i.ready && generator.genValid && sourceGenerator) ||
         (inBeat.eop && i.ready && inValid && !sourceGenerator) ||
         (!inValid && !sourceGenerator)
      {
        source := false;
        if i.valid || enableGenerator == 0 {
          source := false;
        } else if generator.genValid && (!sourceGenerator || enableGenerator != 1) {
          source := true;
        }
      }
    }

    // One clock outside reset; every block reads the registers as they were before it.
    method Clock(i: Input)
      requires Valid()
      modifies this, generator
      ensures Valid() && View() == Step(old(View()), i)
    {
      hide GenStep, NextSource, NextEnable;
      var valid, beat, inReady := Outputs(i.ready);
      var enable := NextCounter(i);
      var source := Arbitrate(i);
      // decr_gen
      decrGenerator := sourceGenerator && beat.sop && valid && i.ready;
      if valid && i.ready {
        sent := sent + [Out(beat, sourceGenerator)];
      }
      generator.Clock(false, sourceGenerator && i.ready);
      if inReady {
        inValid := i.valid;
        inBeat := i.beat;
        if i.valid {
          taken := taken + [i.beat];
        }
      }
      enableGenerator := enable;
      sourceGenerator := source;
    }

    // A clock in reset
    method Reset()
      requires Valid()
      modifies this, generator
      ensures Valid()
      ensures View() == old(View()).(gen := old(View()).gen.(idx := 0, valid := false), inValid := false,
                                     source := false, enable := 0, decr := false, taken := [], sent := [])
    {
      generator.Clock(true, false);
      inValid := false;
      sourceGenerator := false;
      enableGenerator := 0;
      decrGenerator := false;
      taken, sent := [], [];
    }
  }

  function Run(s: State, ins: seq<Input>): State
    decreases |ins|
  {
    if ins == [] then s else Step(Run(s, ins[..|ins| - 1]), ins[|ins| - 1])
  }

  // ----- Invariants -----

  // The registers after reset, and every state reached from them.
  ghost predicate Consistent(s: State)
  {
    && s.gen.idx <= 1
    && (s.gen.valid ==> s.gen.beat == GenBeat(s.gen.idx))
    && (!s.gen.valid ==> s.gen.idx == 0)
    && (s.source ==> s.gen.valid && !s.inValid)
    && (!s.source ==> s.gen.idx == 0)
  }

  lemma StepKeepsConsistent(s: State, i: Input)
    requires Consistent(s)
    ensures Consistent(Step(s, i)) && Step(s, i).gen.valid
  {
  }

  // While the output is offered and not taken, it does not change.
  lemma OutputHolds(s: State, i: Input)
    requires Consistent(s) && OutValid(s) && !i.ready
    ensures OutValid(Step(s, i)) && OutBeat(Step(s, i)) == OutBeat(s)
    ensures Step(s, i).source == s.source
  {
  }

  // ----- No beat of the input stream is lost, doubled or reordered -----

  function FromInput(sent: seq<Out>): seq<Beat>
  {
    if sent == [] then []
    else
      var last := sent[|sent| - 1];
      FromInput(sent[..|sent| - 1]) + (if last.generated then [] else [last.beat])
  }

  lemma FromInputAppend(sent: seq<Out>, o: Out)
    ensures FromInput(sent + [o]) == FromInput(sent) + (if o.generated then [] else [o.beat])
  {
    assert (sent + [o])[..|sent|] == sent;
  }

  // Everything taken has been sent, but for the beat in the input register.
  ghost predicate Conserved(s: State)
  {
    s.taken == FromInput(s.sent) + (if s.inValid then [s.inBeat] else [])
  }

  lemma StepConserves(s: State, i: Input)
    requires Consistent(s) && Conserved(s)
    ensures Conserved(Step(s, i))
  {
    FromInputAppend(s.sent, Out(OutBeat(s), s.source));
  }

  lemma {:induction false} InputConserved(s: State, ins: seq<Input>)
    requires Consistent(s) && Conserved(s)
    ensures Consistent(Run(s, ins)) && Conserved(Run(s, ins))
    decreases |ins|
  {
    hide Step, Conserved, Consistent;
    if ins != [] {
      InputConserved(s, ins[..|ins| - 1]);
      StepKeepsConsistent(Run(s, ins[..|ins| - 1]), ins[|ins| - 1]);
      StepConserves(Run(s, ins[..|ins| - 1]), ins[|ins| - 1]);
    }
  }

  // ----- No packet is split -----

  // What the sink makes of the beats so far
  datatype Track = Boundary | Inside(generated: bool) | Broken

  function Follow(t: Track, o: Out): Track
  {
    match t
    case Boundary => if !o.beat.sop then Broken else if o.beat.eop then Boundary else Inside(o.generated)
    case Inside(g) => if o.beat.sop || o.generated != g then Broken else if o.beat.eop then Boundary else t
    case Broken => Broken
  }

  function TrackOf(sent: seq<Out>): Track
  {
    if sent == [] then Boundary else Follow(TrackOf(sent[..|sent| - 1]), sent[|sent| - 1])
  }

  // The input stream is in the middle of a packet.
  predicate MidPacket(s: State)
  {
    s.taken != [] && !s.taken[|s.taken| - 1].eop
  }

  // A source that marks its packets and keeps valid high from SOP to EOP.
  predicate Steady(s: State, i: Input)
  {
    (MidPacket(s) ==> i.valid) && (i.valid ==> i.beat.sop == !MidPacket(s))
  }

  ghost predicate AllSteady(s: State, ins: seq<Input>)
  {
    forall k :: 0 <= k < |ins| ==> Steady(Run(s, ins[..k]), ins[k])
  }

  ghost predicate Whole(s: State)
  {
    && Consistent(s)
    && (s.inValid ==> s.taken != [] && s.inBeat == s.taken[|s.taken| - 1])
    && (s.source ==> !MidPacket(s))
    && TrackOf(s.sent) ==
         if s.source then (if s.gen.idx == 0 then Boundary else Inside(true))
         else if s.inValid then (if s.inBeat.sop then Boundary else Inside(false))
         else if MidPacket(s) then Inside(false) else Boundary
  }

  lemma StepKeepsWhole(s: State, i: Input)
    requires Whole(s) && Steady(s, i)
    ensures Whole(Step(s, i))
  {
    var o := Out(OutBeat(s), s.source);
    assert (s.sent + [o])[..|s.sent|] == s.sent;
    assert TrackOf(s.sent + [o]) == Follow(TrackOf(s.sent), o);
  }

  lemma WholeIsNotBroken(s: State)
    requires Whole(s)
    ensures Consistent(s) && TrackOf(s.sent) != Broken
  {
  }

  lemma {:induction false} SteadyFront(s: State, ins: seq<Input>)
    requires ins != [] && AllSteady(s, ins)
    ensures AllSteady(s, ins[..|ins| - 1]) && Steady(Run(s, ins[..|ins| - 1]), ins[|ins| - 1])
  {
    hide Run, Steady;
    var before := ins[..|ins| - 1];
    assert forall k :: 0 <= k < |before| ==> before[k] == ins[k] && before[..k] == ins[..k];
  }

  // Every packet at the output is whole, from one source, whatever the ready pattern.
  lemma {:induction false} PacketsAreWhole(s: State, ins: seq<Input>)
    requires Whole(s) && AllSteady(s, ins)
    ensures Whole(Run(s, ins)) && TrackOf(Run(s, ins).sent) != Broken
    decreases |ins|
  {
    if ins != [] {
      hide Step, Steady, AllSteady, TrackOf, Whole;
      var before := ins[..|ins| - 1];
      SteadyFront(s, ins);
      PacketsAreWhole(s, before);
      StepKeepsWhole(Run(s, before), ins[|ins| - 1]);
      WholeIsNotBroken(Run(s, ins));
    }
  }

  // ----- One write of N gives N packets -----

  function Started(sent: seq<Out>): nat
  {
    if sent == [] then 0
    else
      var last := sent[|sent| - 1];
      Started(sent[..|sent| - 1]) + (if last.generated && last.beat.sop then 1 else 0)
  }

  // Packets still to be started: the counter lags one clock behind a start.
  function Remaining(s: State): nat
  {
    if s.decr && s.enable > 0 then s.enable - 1 else s.enable
  }

  // n packets in all have been asked for.
  ghost predicate Counting(s: State, n: nat)
  {
    && Whole(s) && s.gen.valid
    && s.enable < ENDLESS
    && (s.decr ==> s.enable > 0 && s.source && s.gen.idx == 1)
    && (s.source && s.gen.idx == 0 ==> s.enable > 0)
    && Started(s.sent) + Remaining(s) == n
  }

  // How much a run still has to do
  function Work(s: State): nat
  {
    3 * Remaining(s) +
    (if !s.source then (if Remaining(s) > 0 then 1 else 0) else if s.gen.idx == 0 then 0 else 2)
  }

  // A clock the generator can use: the sink takes a beat and the input stream offers none.
  predicate Offers(i: Input)
  {
    i.ready && !i.valid
  }

  lemma StepCounts(s: State, i: Input, n: nat)
    requires Counting(s, n) && Steady(s, i) && !(i.write && i.address == 0)
    ensures Counting(Step(s, i), n)
    ensures Work(Step(s, i)) <= Work(s)
    ensures Offers(i) && Work(s) > 0 ==> Work(Step(s, i)) < Work(s)
  {
    var o := Out(OutBeat(s), s.source);
    assert (s.sent + [o])[..|s.sent|] == s.sent;
    StepKeepsWhole(s, i);
    WholeIsNotBroken(s);
    hide TrackOf, Whole, Follow;
  }

  function Offered(ins: seq<Input>): nat
  {
    if ins == [] then 0
    else Offered(ins[..|ins| - 1]) + (if Offers(ins[|ins| - 1]) then 1 else 0)
  }

  // No further write to the counter
  predicate LeavesCounter(ins: seq<Input>)
  {
    forall k :: 0 <= k < |ins| ==> !(ins[k].write && ins[k].address == 0)
  }

  lemma {:induction false} RunCounts(s: State, ins: seq<Input>, n: nat)
    requires Counting(s, n) && AllSteady(s, ins) && LeavesCounter(ins)
    ensures Counting(Run(s, ins), n)
    ensures Work(Run(s, ins)) == 0 || Work(Run(s, ins)) + Offered(ins) <= Work(s)
    decreases |ins|
  {
    if ins != [] {
      var before := ins[..|ins| - 1];
      assert forall k :: 0 <= k < |before| ==> before[k] == ins[k] && before[..k] == ins[..k];
      RunCounts(s, before, n);
      assert Steady(Run(s, before), ins[|ins| - 1]);
      hide Step, Steady, Counting, Work;
      StepCounts(Run(s, before), ins[|ins| - 1], n);
    }
  }

  // The generator is idle, whatever it has generated before.
  ghost predicate Idle(s: State)
  {
    Whole(s) && s.enable == 0 && !s.decr && !s.source
  }

  // One write of n to an idle generator: under every pattern of input packets and ready, never
  // more than n packets are started after it, and once the generator has been offered the output at
  // 3 n + 1 clocks, exactly n have been sent, whole, and no more will be.
  lemma {:induction false} WriteGivesPackets(s: State, write: Input, ins: seq<Input>)
    requires Idle(s)
    requires write.write && write.address == 0 && 0 < write.writeData < ENDLESS && Steady(s, write)
    requires AllSteady(Step(s, write), ins) && LeavesCounter(ins)
    ensures var n := write.writeData;
            var s' := Run(Step(s, write), ins);
            && Started(s'.sent) + Remaining(s') == Started(s.sent) + n
            && (Offered(ins) >= 3 * n + 1 ==>
                  Started(s'.sent) == Started(s.sent) + n && !s'.source && TrackOf(s'.sent) != Inside(true))
  {
    var n := write.writeData;
    var s1 := Step(s, write);
    var o := Out(OutBeat(s), s.source);
    assert (s.sent + [o])[..|s.sent|] == s.sent;
    StepKeepsWhole(s, write);
    assert Counting(s1, Started(s.sent) + n);
    RunCounts(s1, ins, Started(s.sent) + n);
    var s' := Run(s1, ins);
    hide Run, Step;
    assert Whole(s');
  }

  // A generator that nobody asks for a packet sends none,
  lemma {:induction false} NothingUnasked(s: State, ins: seq<Input>)
    requires Idle(s) && LeavesCounter(ins)
    ensures var t := Run(s, ins);
            Started(t.sent) == Started(s.sent) && t.enable == 0 && !t.decr && !t.source
    decreases |ins|
  {
    hide Whole;
    if ins != [] {
      var before, i := ins[..|ins| - 1], ins[|ins| - 1];
      NothingUnasked(s, before);
      var m := Run(s, before);
      StartedAppend(m.sent, Out(OutBeat(m), m.source));
      hide Started, Run, GenStep;
    }
  }

  lemma StartedAppend(sent: seq<Out>, o: Out)
    ensures Started(sent + [o]) == Started(sent) + (if o.generated && o.beat.sop then 1 else 0)
  {
    assert (sent + [o])[..|sent|] == sent;
  }

  // and one that is asked for packets without end is asked forever.
  lemma {:induction false} EndlessStays(s: State, ins: seq<Input>)
    requires s.enable == 0xFFFF_FFFF && LeavesCounter(ins)
    ensures Run(s, ins).enable == 0xFFFF_FFFF
    decreases |ins|
  {
    hide GenStep, NextSource;
    if ins != [] {
      EndlessStays(s, ins[..|ins| - 1]);
    }
  }

  // What the generator sends: the two beats of its packet, on channel 0, nothing empty in them
  lemma {:induction false} GeneratedBeats(s: State, ins: seq<Input>, k: nat)
    requires Consistent(s)
    requires |s.sent| <= k < |Run(s, ins).sent| && Run(s, ins).sent[k].generated
    ensures var b := Run(s, ins).sent[k].beat;
            || b == Beat(0xbcb5565605060708090a0b0c0d0e0f101112131415161718191a1b1c1d1e1fff, 0, 0, true, false)
            || b == Beat(0xbaadc0debaadc0debaadc0debaadc0debaadc0debaadc0debaadc0debc95d5d5, 0, 0, false, true)
    decreases |ins|
  {
    if ins != [] {
      var before, i := ins[..|ins| - 1], ins[|ins| - 1];
      RunKeepsConsistent(s, before);
      var m := Run(s, before);
      if k < |m.sent| {
        GeneratedBeats(s, before, k);
      }
      hide Run, NextSource, NextEnable;
    }
  }

  lemma {:induction false} RunKeepsConsistent(s: State, ins: seq<Input>)
    requires Consistent(s)
    ensures Consistent(Run(s, ins))
    decreases |ins|
  {
    hide Consistent, Step;
    if ins != [] {
      RunKeepsConsistent(s, ins[..|ins| - 1]);
      StepKeepsConsistent(Run(s, ins[..|ins| - 1]), ins[|ins| - 1]);
    }
  }

  // ----- The input has priority -----

  predicate AllValid(ins: seq<Input>)
  {
    forall k :: 0 <= k < |ins| ==> ins[k].valid
  }

  // The clocks at which the sink is ready
  function ReadyClocks(ins: seq<Input>): nat
  {
    if ins == [] then 0 else ReadyClocks(ins[..|ins| - 1]) + (if ins[|ins| - 1].ready then 1 else 0)
  }

  // The beats of a generated packet still to be sent before the input gets the output
  function Ahead(s: State): int
  {
    if !s.source then 0 else 2 - s.gen.idx
  }

  // A packet that has the output and has not been started
  function ToStart(s: State): nat
  {
    if s.source && s.gen.idx == 0 then 1 else 0
  }

  lemma WaitingStep(s: State, i: Input)
    requires Consistent(s) && i.valid
    ensures var t := Step(s, i);
            && Ahead(t) == (if Ahead(s) > 0 && i.ready then Ahead(s) - 1 else Ahead(s))
            && Started(t.sent) + ToStart(t) == Started(s.sent) + ToStart(s)
            && (Ahead(s) > 0 ==> t.taken == s.taken && !t.inValid && !s.inValid)
            && (Ahead(s) == 0 && (i.ready || !s.inValid) ==> t.taken == s.taken + [i.beat])
            && (Ahead(s) == 0 && !i.ready && s.inValid ==> t.taken == s.taken && t.inValid)
  {
    StartedAppend(s.sent, Out(OutBeat(s), s.source));
    hide Started;
  }

  lemma {:induction false} InputWaits(s: State, ins: seq<Input>)
    requires Consistent(s) && AllValid(ins)
    ensures var t := Run(s, ins);
            && 0 <= Ahead(t) && Ahead(t) == (if ReadyClocks(ins) < Ahead(s) then Ahead(s) - ReadyClocks(ins) else 0)
            && Started(t.sent) + ToStart(t) == Started(s.sent) + ToStart(s)
            && |t.taken| >= |s.taken|
            && (|t.taken| == |s.taken| ==>
                  if Ahead(s) == 0 then ReadyClocks(ins) == 0 && t.inValid == s.inValid && (ins != [] ==> t.inValid)
                  else ReadyClocks(ins) <= Ahead(s) && !t.inValid)
    decreases |ins|
  {
    if ins != [] {
      var before, i := ins[..|ins| - 1], ins[|ins| - 1];
      InputWaits(s, before);
      RunKeepsConsistent(s, before);
      WaitingStep(Run(s, before), i);
      hide Step, Started;
    }
  }

  // While the input stream offers a beat, the generator starts no packet but the one that has the output already and
  // none if that one has begun; after two clocks with a ready sink the input has the output, and its beat is
  // taken no later than at the clock after.
  lemma InputHasPriority(s: State, ins: seq<Input>)
    requires Consistent(s) && AllValid(ins)
    ensures Started(Run(s, ins).sent) <= Started(s.sent) + (if s.source && s.gen.idx == 0 then 1 else 0)
    ensures ReadyClocks(ins) >= 2 ==> !Run(s, ins).source
    ensures |ins| > 0 && ReadyClocks(ins[..|ins| - 1]) >= 2 ==> |Run(s, ins).taken| > |s.taken|
  {
    InputWaits(s, ins);
    if |ins| > 0 {
      var before, i := ins[..|ins| - 1], ins[|ins| - 1];
      InputWaits(s, before);
      RunKeepsConsistent(s, before);
      WaitingStep(Run(s, before), i);
    }
    RunKeepsConsistent(s, ins);
    hide Step, Started;
  }

  // ----- What a gap in an input packet does -----

  // A source that marks its packets, but may pause inside one.
  predicate Marked(s: State, i: Input)
  {
    i.valid ==> i.beat.sop == !MidPacket(s)
  }

  ghost predicate AllMarked(s: State, ins: seq<Input>)
  {
    forall k :: 0 <= k < |ins| ==> Marked(Run(s, ins[..k]), ins[k])
  }

  // The input pauses inside a packet with the input register drained, and packets are asked of the generator.
  predicate Gap(s: State, i: Input)
  {
    MidPacket(s) && !s.source && !s.inValid && !i.valid && s.enable != 0 && s.gen.valid
  }

  predicate GapAt(s: State, ins: seq<Input>, k: nat)
    requires k < |ins|
  {
    Gap(Run(s, ins[..k]), ins[k])
  }

  // The generator has the output, with nothing sent yet, in the middle of an input packet.
  ghost predicate Interrupted(s: State)
  {
    s.source && s.gen == Gen(0, true, GenBeat(0)) && TrackOf(s.sent) == Inside(false)
  }

  lemma MarkedStep(s: State, i: Input)
    requires Whole(s) && Marked(s, i)
    ensures if Gap(s, i) then Interrupted(Step(s, i)) else Whole(Step(s, i))
    ensures TrackOf(s.sent) != Broken
  {
    var o := Out(OutBeat(s), s.source);
    assert (s.sent + [o])[..|s.sent|] == s.sent;
    assert TrackOf(s.sent + [o]) == Follow(TrackOf(s.sent), o);
  }

  lemma InterruptedStep(s: State, i: Input)
    requires Interrupted(s)
    ensures if i.ready then TrackOf(Step(s, i).sent) == Broken else Interrupted(Step(s, i))
    ensures !Gap(s, i)
  {
    var o := Out(OutBeat(s), s.source);
    assert (s.sent + [o])[..|s.sent|] == s.sent;
    assert TrackOf(s.sent + [o]) == Follow(TrackOf(s.sent), o);
  }

  lemma BrokenStep(s: State, i: Input)
    requires TrackOf(s.sent) == Broken
    ensures TrackOf(Step(s, i).sent) == Broken
  {
    var o := Out(OutBeat(s), s.source);
    assert (s.sent + [o])[..|s.sent|] == s.sent;
  }

  ghost predicate GapSomewhere(s: State, ins: seq<Input>)
  {
    exists k: nat :: k < |ins| && GapAt(s, ins, k)
  }

  ghost predicate BeatAfterGap(s: State, ins: seq<Input>)
  {
    exists k: nat, j: nat :: k < j < |ins| && GapAt(s, ins, k) && ins[j].ready
  }

  lemma GapsAppend(s: State, ins: seq<Input>, i: Input)
    ensures GapSomewhere(s, ins + [i]) <==> GapSomewhere(s, ins) || Gap(Run(s, ins), i)
    ensures BeatAfterGap(s, ins + [i]) <==> BeatAfterGap(s, ins) || (GapSomewhere(s, ins) && i.ready)
  {
    hide Run, Gap;
    var all := ins + [i];
    assert all[..|ins|] == ins;
    assert GapAt(s, all, |ins|) == Gap(Run(s, ins), i);
    forall k: nat | k < |ins|
      ensures GapAt(s, all, k) == GapAt(s, ins, k)
    {
      assert all[..k] == ins[..k];
    }
    if k: nat :| k < |ins| && GapAt(s, ins, k) {
      assert GapAt(s, all, k);
      assert i.ready ==> all[|ins|].ready;
    }
    if k: nat, j: nat :| k < j < |ins| && GapAt(s, ins, k) && ins[j].ready {
      assert GapAt(s, all, k) && all[j].ready;
    }
    if k: nat, j: nat :| k < j < |all| && GapAt(s, all, k) && all[j].ready {
      assert GapAt(s, ins, k);
      assert j < |ins| ==> ins[j].ready;
    }
  }

  // Without the promise that the input keeps valid high: a packet at the output is split if and only if the
  // input paused inside a packet with its register drained while packets were asked of the generator, and
  // the sink took a beat after that.
  lemma {:induction false} SplitByGap(s: State, ins: seq<Input>)
    requires Whole(s) && AllMarked(s, ins)
    ensures TrackOf(Run(s, ins).sent) == Broken <==> BeatAfterGap(s, ins)
    ensures if BeatAfterGap(s, ins) then TrackOf(Run(s, ins).sent) == Broken
            else if GapSomewhere(s, ins) then Interrupted(Run(s, ins))
            else Whole(Run(s, ins))
    decreases |ins|
  {
    hide Step, Marked, Gap, Whole, TrackOf, BeatAfterGap, GapSomewhere;
    if ins == [] {
      NoGaps(s);
    } else {
      var before, i := ins[..|ins| - 1], ins[|ins| - 1];
      var r := Run(s, before);
      assert forall k :: 0 <= k < |before| ==> before[k] == ins[k] && before[..k] == ins[..k];
      assert Marked(r, i);
      SplitByGap(s, before);
      assert before + [i] == ins;
      GapsAppend(s, before, i);
      if BeatAfterGap(s, before) {
        BrokenStep(r, i);
      } else if GapSomewhere(s, before) {
        InterruptedStep(r, i);
      } else {
        MarkedStep(r, i);
      }
    }
    hide Run;
    InterruptedIsNotBroken(s, ins);
  }

  lemma NoGaps(s: State)
    ensures !GapSomewhere(s, []) && !BeatAfterGap(s, [])
  {
  }

  lemma InterruptedIsNotBroken(s: State, ins: seq<Input>)
    ensures Interrupted(Run(s, ins)) || Whole(Run(s, ins)) ==> TrackOf(Run(s, ins).sent) != Broken
  {
    hide Run;
  }

  // A first beat, a pause, and a packet asked of the generator: its first beat follows the input's.
  lemma GapSplitsPacket(first: Beat)
    requires first.sop && !first.eop
    ensures var start := State(Gen(0, false, NO_BEAT), false, NO_BEAT, false, 0, false, [], []);
            var pause := Input(false, NO_BEAT, true, false, 0, 0);
            var ask, beat := pause.(write := true, writeData := 1), pause.(valid := true, beat := first);
            var ins := [ask, beat, pause, pause, pause];
            && Whole(start) && AllMarked(start, ins)
            && Run(start, ins).sent == [Out(first, false), Out(GenBeat(0), true)]
            && TrackOf(Run(start, ins).sent) == Broken
  {
    var start := State(Gen(0, false, NO_BEAT), false, NO_BEAT, false, 0, false, [], []);
    var pause := Input(false, NO_BEAT, true, false, 0, 0);
    var ask, beat := pause.(write := true, writeData := 1), pause.(valid := true, beat := first);
    var ins := [ask, beat, pause, pause, pause];
    var s1 := Step(start, ins[0]);
    var s2 := Step(s1, ins[1]);
    var s3 := Step(s2, ins[2]);
    var s4 := Step(s3, ins[3]);
    assert ins[..1][..0] == [] && ins[..2][..1] == ins[..1] && ins[..3][..2] == ins[..2] && ins[..4][..3] == ins[..3];
    assert Run(start, ins[..1]) == s1;
    assert Run(start, ins[..2]) == s2;
    assert Run(start, ins[..3]) == s3;
    assert Run(start, ins[..4]) == s4;
    assert ins[..5] == ins && Run(start, ins) == Step(s4, ins[4]);
    assert s4.source && s4.sent == [Out(first, false)];
    assert [Out(first, false), Out(GenBeat(0), true)][..1] == [Out(first, false)];
  }
}
