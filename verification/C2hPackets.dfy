/** The packets that the card-to-host sender puts on the TLP stream, while others arrive
    (ip/fejkon_pcie_data/c2h_dma.sv).
 */
module C2hPackets {
  import opened Bits
  import opened C2hDma

  // ----- Lists of packets -----

  predicate AllValid(ps: seq<Packet>)
  {
    forall i :: 0 <= i < |ps| ==> ps[i].Valid()
  }

  function BeatsOf(ps: seq<Packet>): seq<Staged>
  {
    if ps == [] then [] else BeatsOf(ps[..|ps| - 1]) + ps[|ps| - 1].beats
  }

  function MetasOf(ps: seq<Packet>): (ms: seq<Meta>)
    ensures |ms| == |ps|
  {
    seq(|ps|, i requires 0 <= i < |ps| => ps[i].MetaData())
  }

  // One clock for each header and each beat
  function Clocks(ps: seq<Packet>): nat
  {
    if ps == [] then 0 else Clocks(ps[..|ps| - 1]) + 1 + |ps[|ps| - 1].beats|
  }

  function PtrAfterAll(c: Config, ptr: nat, ps: seq<Packet>): nat
  {
    if ps == [] then ptr else NextPtr(c, PtrAfterAll(c, ptr, ps[..|ps| - 1]), ps[|ps| - 1])
  }

  // The TLP of each packet that is sent, with the pointer it is sent at
  function Tlps(c: Config, ptr: nat, ps: seq<Packet>): seq<seq<TlpBeat>>
  {
    if ps == [] then []
    else
      var q := PtrAfterAll(c, ptr, ps[..|ps| - 1]);
      Tlps(c, ptr, ps[..|ps| - 1]) + (if Sane(c, q) then [TlpOf(c, q, ps[|ps| - 1])] else [])
  }

  function Joined(tlps: seq<seq<TlpBeat>>): seq<TlpBeat>
  {
    if tlps == [] then [] else Joined(tlps[..|tlps| - 1]) + tlps[|tlps| - 1]
  }

  // ----- Packets that arrive while others are sent -----

  function ArrivedBeats(ins: seq<Input>): seq<Staged>
  {
    if ins == [] then [] else ArrivedBeats(ins[..|ins| - 1]) + ins[|ins| - 1].beats
  }

  function ArrivedMetas(ins: seq<Input>): seq<Meta>
  {
    if ins == [] then [] else ArrivedMetas(ins[..|ins| - 1]) + ins[|ins| - 1].metas
  }

  // So far the beats of the packets have arrived in order, and the metadata of a packet not before its beats.
  ghost predicate FedSoFar(ps: seq<Packet>, ins: seq<Input>)
  {
    var n := |ArrivedMetas(ins)|;
    && ArrivedBeats(ins) <= BeatsOf(ps)
    && n <= |ps| && ArrivedMetas(ins) == MetasOf(ps)[..n]
    && |BeatsOf(ps[..n])| <= |ArrivedBeats(ins)|
  }

  ghost predicate Feeds(ps: seq<Packet>, ins: seq<Input>)
  {
    forall t :: 0 <= t <= |ins| ==> FedSoFar(ps, ins[..t])
  }

  // Neither a reset nor a host write, and the same configuration and identity
  predicate Undisturbed(c: Config, i: Input)
  {
    i.c == c && !i.reset && !i.load
  }

  predicate AllUndisturbed(c: Config, ins: seq<Input>)
  {
    forall t :: 0 <= t < |ins| ==> Undisturbed(c, ins[t])
  }

  // Before packet k, or j beats into it
  datatype Progress = Before(k: nat) | Inside(k: nat, j: nat)

  // The clocks a sender with enough work needs to get there
  function Position(ps: seq<Packet>, at: Progress): nat
    requires at.k <= |ps|
  {
    Clocks(ps[..at.k]) + if at.Inside? then 1 + at.j else 0
  }

  // The first nb beats and nm metadata words have arrived, and every beat of the first nm packets.
  ghost predicate Arrived(ps: seq<Packet>, nb: nat, nm: nat)
  {
    nb <= |BeatsOf(ps)| && nm <= |ps| && BeatsBefore(ps, nm) <= nb
  }

  function BeatsBefore(ps: seq<Packet>, k: nat): nat
    requires k <= |ps|
  {
    |BeatsOf(ps[..k])|
  }

  // Of the beats that have arrived, those from packet k on
  function BeatsFrom(ps: seq<Packet>, k: nat, nb: nat): seq<Staged>
    requires k <= |ps|
  {
    if BeatsBefore(ps, k) <= nb <= |BeatsOf(ps)| then BeatsOf(ps)[BeatsBefore(ps, k)..nb] else []
  }

  function MetasFrom(ps: seq<Packet>, k: nat, nm: nat): seq<Meta>
  {
    if k <= nm <= |ps| then MetasOf(ps)[k..nm] else []
  }

  // A packet after j of its beats
  function BeatsLeft(p: Packet, j: nat): seq<Staged>
  {
    if j <= |p.beats| then p.beats[j..] else []
  }

  function DataLeft(p: Packet, j: nat): seq<nat>
  {
    if 8 * j <= |p.data| then p.data[8 * j..] else []
  }

  // Where the sender is when nb beats and nm metadata words have arrived, with what it has sent and what it
  // still has to send of the packet
  ghost predicate Stands(s: State, c: Config, ps: seq<Packet>, ptr: nat, nb: nat, nm: nat, at: Progress,
                         sent: seq<TlpBeat>)
  {
    && AllValid(ps) && Arrived(ps, nb, nm) && at.k <= nm <= |ps| && s.metas == MetasFrom(ps, at.k, nm)
    && match at
       case Before(k) =>
         && Idle(s) && s.fifo == BeatsFrom(ps, k, nb)
         && s.ptr == PtrAfterAll(c, ptr, ps[..k]) && sent == Joined(Tlps(c, ptr, ps[..k]))
       case Inside(k, j) =>
         && k < nm && DataLeft(ps[k], j) != []
         && MidPacket(s, BeatsLeft(ps[k], j), DataLeft(ps[k], j), BeatsFrom(ps, k + 1, nb))
         && PtrAfterBeats(c, s, DataLeft(ps[k], j)) == PtrAfterAll(c, ptr, ps[..k + 1])
         && sent + Rest(s, BeatsLeft(ps[k], j)) == Joined(Tlps(c, ptr, ps[..k + 1]))
  }

  // What is still to be sent of a packet with these beats left
  function Rest(s: State, beats: seq<Staged>): seq<TlpBeat>
  {
    if s.valid then DataBeats(beats, s.left) else []
  }

  // The beats of packet k are where they should be.
  lemma {:induction false} BeatsAt(ps: seq<Packet>, k: nat)
    requires k < |ps|
    ensures BeatsBefore(ps, k + 1) == BeatsBefore(ps, k) + |ps[k].beats| <= |BeatsOf(ps)|
    ensures BeatsOf(ps)[BeatsBefore(ps, k)..BeatsBefore(ps, k + 1)] == ps[k].beats
    decreases |ps|
  {
    assert ps[..k + 1][..k] == ps[..k];
    if k + 1 == |ps| {
      assert ps[..k + 1] == ps;
    } else {
      var front := ps[..|ps| - 1];
      BeatsAt(front, k);
      assert front[..k] == ps[..k] && front[..k + 1] == ps[..k + 1];
    }
  }

  lemma {:induction false} BeatsGrow(ps: seq<Packet>, k: nat, m: nat)
    requires k <= m <= |ps|
    ensures BeatsBefore(ps, k) <= BeatsBefore(ps, m)
    decreases m
  {
    if k < m {
      BeatsGrow(ps, k, m - 1);
      BeatsAt(ps, m - 1);
    }
  }

  // One more packet
  lemma {:induction false} NextTlp(c: Config, ptr: nat, ps: seq<Packet>, k: nat)
    requires k < |ps|
    ensures var q := PtrAfterAll(c, ptr, ps[..k]);
            && PtrAfterAll(c, ptr, ps[..k + 1]) == NextPtr(c, q, ps[k])
            && Joined(Tlps(c, ptr, ps[..k + 1])) ==
               Joined(Tlps(c, ptr, ps[..k])) + (if Sane(c, q) then TlpOf(c, q, ps[k]) else [])
    ensures Clocks(ps[..k + 1]) == Clocks(ps[..k]) + 1 + |ps[k].beats|
  {
    hide TlpOf, NextPtr, Sane;
    assert ps[..k + 1][..k] == ps[..k];
    var before, q := Tlps(c, ptr, ps[..k]), PtrAfterAll(c, ptr, ps[..k]);
    if Sane(c, q) {
      assert Tlps(c, ptr, ps[..k + 1]) == before + [TlpOf(c, q, ps[k])];
      assert (before + [TlpOf(c, q, ps[k])])[..|before|] == before;
    } else {
      assert Tlps(c, ptr, ps[..k + 1]) == before + [] == before;
    }
  }

  // The next beats and metadata of the packets arrive.
  ghost predicate Brings(i: Input, ps: seq<Packet>, nb: nat, nm: nat)
  {
    && Arrived(ps, nb, nm) && Arrived(ps, nb + |i.beats|, nm + |i.metas|)
    && i.beats == BeatsOf(ps)[nb..nb + |i.beats|] && i.metas == MetasOf(ps)[nm..nm + |i.metas|]
  }

  lemma QueuesGrow(i: Input, ps: seq<Packet>, nb: nat, nm: nat, k: nat)
    requires Brings(i, ps, nb, nm) && k <= nm
    ensures BeatsFrom(ps, k, nb) + i.beats == BeatsFrom(ps, k, nb + |i.beats|)
    ensures MetasFrom(ps, k, nm) + i.metas == MetasFrom(ps, k, nm + |i.metas|)
  {
    hide BeatsOf, BeatsBefore, MetasOf;
    BeatsGrow(ps, k, nm);
    SliceGrows(BeatsOf(ps), BeatsBefore(ps, k), nb, nb + |i.beats|);
    SliceGrows(MetasOf(ps), k, nm, nm + |i.metas|);
  }

  lemma SliceGrows<T>(s: seq<T>, i: nat, j: nat, k: nat)
    requires i <= j <= k <= |s|
    ensures s[i..j] + s[j..k] == s[i..k]
  {
  }

  lemma QueueHeads(ps: seq<Packet>, nb: nat, nm: nat, k: nat)
    requires Arrived(ps, nb, nm) && k < nm
    ensures BeatsFrom(ps, k, nb) == ps[k].beats + BeatsFrom(ps, k + 1, nb)
    ensures MetasFrom(ps, k, nm) == [ps[k].MetaData()] + MetasFrom(ps, k + 1, nm)
  {
    hide BeatsOf, BeatsBefore, MetasOf;
    BeatsAt(ps, k);
    BeatsGrow(ps, k + 1, nm);
    SliceGrows(BeatsOf(ps), BeatsBefore(ps, k), BeatsBefore(ps, k + 1), nb);
    SliceGrows(MetasOf(ps), k, k + 1, nm);
    MetaAt(ps, k);
  }

  lemma MetaAt(ps: seq<Packet>, k: nat)
    requires k < |ps|
    ensures MetasOf(ps)[k..k + 1] == [ps[k].MetaData()]
  {
  }

  lemma WholeLeft(p: Packet)
    requires p.Valid()
    ensures BeatsLeft(p, 0) == p.beats && DataLeft(p, 0) == p.data != []
  {
    hide Carries;
  }

  lemma OneFewer(p: Packet, j: nat)
    requires |DataLeft(p, j)| > 8 && |BeatsLeft(p, j)| > 0
    ensures BeatsLeft(p, j)[1..] == BeatsLeft(p, j + 1) && DataLeft(p, j)[8..] == DataLeft(p, j + 1) != []
  {
  }

  lemma LastLeft(p: Packet, j: nat)
    requires |BeatsLeft(p, j)| == 1
    ensures j + 1 == |p.beats|
  {
  }

  // With no metadata staged the sender waits.
  lemma Waits(s: State, i: Input, c: Config, ps: seq<Packet>, ptr: nat, nb: nat, nm: nat, sent: seq<TlpBeat>)
    requires Stands(s, c, ps, ptr, nb, nm, Before(nm), sent) && Undisturbed(c, i) && Brings(i, ps, nb, nm)
    ensures Stands(AnyStep(s, i), c, ps, ptr, nb + |i.beats|, nm + |i.metas|, Before(nm), sent)
    ensures Sends(AnyStep(s, i)) == []
  {
    hide BeatsOf, MetasOf, BeatsFrom, BeatsBefore, Tlps, Joined, PtrAfterAll, Step, AnyStep, AllValid;
    QueuesGrow(i, ps, nb, nm, nm);
    Nothing(s, c);
    Arrives(s, i, c, [], [], []);
  }

  lemma Nothing(s: State, c: Config)
    requires Idle(s) && s.metas == []
    ensures var t := Step(s, c);
            Idle(t) && t.fifo == s.fifo && t.metas == [] && t.ptr == s.ptr && Sends(t) == []
  {
    hide HeaderDwords, SwapAll, Advance;
  }

  // The pointer and the stream after the header beat
  lemma HeaderLeaves(s: State, c: Config, p: Packet, rest: seq<Staged>)
    requires Idle(s) && p.Valid() && s.fifo == p.beats + rest && s.metas != [] && s.metas[0] == p.MetaData()
    ensures PtrAfterBeats(c, Step(s, c), p.data) == NextPtr(c, s.ptr, p)
    ensures Sends(Step(s, c)) + Rest(Step(s, c), p.beats) == if Sane(c, s.ptr) then TlpOf(c, s.ptr, p) else []
  {
    HeaderSent(s, c, p, rest);
    hide Step, HeaderDwords, Carries, DataBeats, Advance, Sane;
  }

  // What arrives joins the queues and changes nothing else.
  lemma Arrives(s: State, i: Input, c: Config, beats: seq<Staged>, data: seq<nat>, rest: seq<Staged>)
    requires Undisturbed(c, i)
    ensures var t, u := Step(s, c), AnyStep(s, i);
            && u.fifo == t.fifo + i.beats && u.metas == t.metas + i.metas && u.ptr == t.ptr
            && Sends(u) == Sends(t) && Rest(u, beats) == Rest(t, beats) && (Idle(u) <==> Idle(t))
            && PtrAfterBeats(c, u, data) == PtrAfterBeats(c, t, data)
            && (MidPacket(t, beats, data, rest) ==> MidPacket(u, beats, data, rest + i.beats))
  {
    hide Step, Carries, DataBeats, Advance;
    assert beats + rest + i.beats == beats + (rest + i.beats);
  }

  lemma Starts(s: State, i: Input, c: Config, ps: seq<Packet>, ptr: nat, nb: nat, nm: nat, k: nat,
               sent: seq<TlpBeat>)
    requires Stands(s, c, ps, ptr, nb, nm, Before(k), sent) && k < nm
    requires Undisturbed(c, i) && Brings(i, ps, nb, nm)
    ensures Stands(AnyStep(s, i), c, ps, ptr, nb + |i.beats|, nm + |i.metas|, Inside(k, 0),
                   sent + Sends(AnyStep(s, i)))
  {
    hide BeatsOf, MetasOf, BeatsFrom, MetasFrom, BeatsLeft, DataLeft, BeatsBefore, Tlps, Joined, PtrAfterAll, Step,
         AnyStep, MidPacket, PtrAfterBeats, Rest, Sends, TlpOf, NextPtr, Sane;
    var p, rest := ps[k], BeatsFrom(ps, k + 1, nb);
    NextTlp(c, ptr, ps, k);
    QueueHeads(ps, nb, nm, k);
    QueuesGrow(i, ps, nb, nm, k);
    QueuesGrow(i, ps, nb, nm, k + 1);
    HeaderSent(s, c, p, rest);
    HeaderLeaves(s, c, p, rest);
    WholeLeft(p);
    Arrives(s, i, c, p.beats, p.data, rest);
    Associates(sent, Sends(AnyStep(s, i)), Rest(AnyStep(s, i), p.beats));
  }

  lemma Associates<T>(a: seq<T>, b: seq<T>, c: seq<T>)
    ensures a + b + c == a + (b + c)
  {
  }

  // A data beat that is not the packet's last
  lemma Continues(s: State, i: Input, c: Config, ps: seq<Packet>, ptr: nat, nb: nat, nm: nat, k: nat, j: nat,
                  sent: seq<TlpBeat>)
    requires Stands(s, c, ps, ptr, nb, nm, Inside(k, j), sent) && |DataLeft(ps[k], j)| > 8
    requires Undisturbed(c, i) && Brings(i, ps, nb, nm)
    ensures Stands(AnyStep(s, i), c, ps, ptr, nb + |i.beats|, nm + |i.metas|, Inside(k, j + 1),
                   sent + Sends(AnyStep(s, i)))
  {
    hide BeatsOf, MetasOf, BeatsFrom, MetasFrom, BeatsLeft, DataLeft, BeatsBefore, Tlps, Joined, PtrAfterAll, Step,
         AnyStep, MidPacket, PtrAfterBeats, Rest, Sends, TlpOf, NextPtr, Sane;
    var beats, data, rest := BeatsLeft(ps[k], j), DataLeft(ps[k], j), BeatsFrom(ps, k + 1, nb);
    QueueHeads(ps, nb, nm, k);
    QueuesGrow(i, ps, nb, nm, k);
    QueuesGrow(i, ps, nb, nm, k + 1);
    OneBeat(s, c, beats, data, rest);
    BeatLeaves(s, c, beats, data, rest);
    OneFewer(ps[k], j);
    Arrives(s, i, c, beats[1..], data[8..], rest);
    Associates(sent, Sends(AnyStep(s, i)), Rest(AnyStep(s, i), beats[1..]));
  }

  // The last data beat
  lemma Ends(s: State, i: Input, c: Config, ps: seq<Packet>, ptr: nat, nb: nat, nm: nat, k: nat, j: nat,
             sent: seq<TlpBeat>)
    requires Stands(s, c, ps, ptr, nb, nm, Inside(k, j), sent) && |DataLeft(ps[k], j)| <= 8
    requires Undisturbed(c, i) && Brings(i, ps, nb, nm)
    ensures |BeatsLeft(ps[k], j)| == 1
    ensures Stands(AnyStep(s, i), c, ps, ptr, nb + |i.beats|, nm + |i.metas|, Before(k + 1),
                   sent + Sends(AnyStep(s, i)))
  {
    hide BeatsOf, MetasOf, BeatsFrom, MetasFrom, BeatsLeft, DataLeft, BeatsBefore, Tlps, Joined, PtrAfterAll, Step,
         AnyStep, MidPacket, PtrAfterBeats, Rest, Sends, TlpOf, NextPtr, Sane;
    var beats, data, rest := BeatsLeft(ps[k], j), DataLeft(ps[k], j), BeatsFrom(ps, k + 1, nb);
    QueueHeads(ps, nb, nm, k);
    QueuesGrow(i, ps, nb, nm, k + 1);
    LastBeat(s, c, beats, data, rest);
    BeatLeaves(s, c, beats, data, rest);
    Arrives(s, i, c, beats, data, rest);
    hide Arrived, Brings, AllValid;
    PopFront(s.metas, MetasFrom(ps, k + 1, nm), ps[k].MetaData());
  }

  lemma PopFront<T>(s: seq<T>, t: seq<T>, x: T)
    requires s == [x] + t
    ensures s[1..] == t
  {
  }

  // What a data beat sends is the first of what was still to be sent.
  lemma BeatLeaves(s: State, c: Config, beats: seq<Staged>, data: seq<nat>, rest: seq<Staged>)
    requires MidPacket(s, beats, data, rest) && data != []
    ensures beats != []
    ensures Rest(s, beats) == Sends(Step(s, c)) + (if |data| > 8 then Rest(Step(s, c), beats[1..]) else [])
    ensures |data| <= 8 <==> |beats| == 1
  {
    BeatOf(beats, data);
    if |data| > 8 {
      OneBeat(s, c, beats, data, rest);
    } else {
      LastBeat(s, c, beats, data, rest);
    }
    hide Step, MidPacket, SwapAll, Carries, Advance;
    assert DataBeats(beats[1..], 0) == [];
    if |data| <= 8 {
      assert beats[1..] == [];
    }
  }

  lemma StandsIn(s: State, c: Config, ps: seq<Packet>, ptr: nat, nb: nat, nm: nat, at: Progress, sent: seq<TlpBeat>)
    requires Stands(s, c, ps, ptr, nb, nm, at, sent)
    ensures at.k <= nm <= |ps| && (at.Inside? ==> at.k < nm)
  {
  }

  // One clock of a sender that is fed packets takes it one position further, unless nothing is staged.
  lemma {:induction false} StepStands(
      s: State, i: Input, c: Config, ps: seq<Packet>, ptr: nat, nb: nat, nm: nat, at: Progress, sent: seq<TlpBeat>)
    returns (at': Progress)
    requires Stands(s, c, ps, ptr, nb, nm, at, sent) && Undisturbed(c, i) && Brings(i, ps, nb, nm)
    ensures Stands(AnyStep(s, i), c, ps, ptr, nb + |i.beats|, nm + |i.metas|, at', sent + Sends(AnyStep(s, i)))
    ensures at.k <= at'.k <= |ps|
    ensures Position(ps, at') == Position(ps, at) + if at == Before(nm) then 0 else 1
  {
    hide Stands, AnyStep, Clocks, BeatsLeft, DataLeft, Brings, Arrived, Sends;
    StandsIn(s, c, ps, ptr, nb, nm, at, sent);
    match at
    case Before(k) =>
      if k == nm {
        Waits(s, i, c, ps, ptr, nb, nm, sent);
        assert sent + [] == sent;
        at' := at;
      } else {
        Starts(s, i, c, ps, ptr, nb, nm, k, sent);
        at' := Inside(k, 0);
      }
    case Inside(k, j) =>
      if |DataLeft(ps[k], j)| > 8 {
        Continues(s, i, c, ps, ptr, nb, nm, k, j, sent);
        at' := Inside(k, j + 1);
      } else {
        Ends(s, i, c, ps, ptr, nb, nm, k, j, sent);
        LastLeft(ps[k], j);
        NextTlp(c, ptr, ps, k);
        at' := Before(k + 1);
      }
  }

  lemma FedStep(ps: seq<Packet>, ins: seq<Input>)
    requires ins != [] && Feeds(ps, ins)
    ensures Feeds(ps, ins[..|ins| - 1])
    ensures var front := ins[..|ins| - 1];
            Brings(ins[|ins| - 1], ps, |ArrivedBeats(front)|, |ArrivedMetas(front)|)
    ensures |ArrivedMetas(ins)| <= |ps|
  {
    hide FedSoFar, Brings;
    var front := ins[..|ins| - 1];
    forall t | 0 <= t <= |front|
      ensures FedSoFar(ps, front[..t])
    {
      assert front[..t] == ins[..t];
    }
    assert ins[..|ins|] == ins && ins[..|front|] == front;
    hide Feeds;
    BringsNext(ps, ins);
  }

  lemma BringsNext(ps: seq<Packet>, ins: seq<Input>)
    requires ins != [] && FedSoFar(ps, ins[..|ins| - 1]) && FedSoFar(ps, ins)
    ensures var front := ins[..|ins| - 1];
            Brings(ins[|ins| - 1], ps, |ArrivedBeats(front)|, |ArrivedMetas(front)|)
    ensures |ArrivedMetas(ins)| <= |ps|
  {
    hide BeatsOf, MetasOf;
    var front := ins[..|ins| - 1];
    Suffix(ArrivedBeats(front), ins[|ins| - 1].beats, BeatsOf(ps));
    Suffix(ArrivedMetas(front), ins[|ins| - 1].metas, MetasOf(ps));
  }

  lemma Suffix<T>(s: seq<T>, t: seq<T>, all: seq<T>)
    requires s + t <= all
    ensures all[|s|..|s| + |t|] == t
  {
    assert all[..|s + t|] == s + t;
  }

  // The clocks a run has had since all metadata had arrived, if it had by clock t
  function Since(ps: seq<Packet>, ins: seq<Input>, t: nat): nat
  {
    if t <= |ins| && |ArrivedMetas(ins[..t])| == |ps| then |ins| - t else 0
  }

  lemma {:induction false} RunStands(s: State, c: Config, ps: seq<Packet>, ins: seq<Input>, t: nat)
    returns (at: Progress)
    requires Idle(s) && s.fifo == [] && s.metas == [] && AllValid(ps) && Feeds(ps, ins) && AllUndisturbed(c, ins)
    ensures Stands(Run(s, ins), c, ps, s.ptr, |ArrivedBeats(ins)|, |ArrivedMetas(ins)|, at, Emitted(s, ins))
    ensures at.k <= |ArrivedMetas(ins)| <= |ps| && Position(ps, at) >= Min(Since(ps, ins, t), Clocks(ps))
    decreases |ins|
  {
    hide Stands, AnyStep, Feeds, Brings, BeatsOf, Clocks, Position, Idle, AllValid, Since;
    if ins == [] {
      StandsFirst(s, c, ps, t);
      at := Before(0);
    } else {
      var n := |ins| - 1;
      var front, i := ins[..n], ins[n];
      FedStep(ps, ins);
      var before := RunStands(s, c, ps, front, t);
      assert Undisturbed(c, i);
      var nb, nm := |ArrivedBeats(front)|, |ArrivedMetas(front)|;
      at := StepStands(Run(s, front), i, c, ps, s.ptr, nb, nm, before, Emitted(s, front));
      StandsIn(Run(s, ins), c, ps, s.ptr, |ArrivedBeats(ins)|, |ArrivedMetas(ins)|, at, Emitted(s, ins));
      SinceStep(ps, ins, t);
      AllBefore(ps);
    }
  }

  lemma AllBefore(ps: seq<Packet>)
    ensures Position(ps, Before(|ps|)) == Clocks(ps)
  {
    assert ps[..|ps|] == ps;
  }

  lemma StandsFirst(s: State, c: Config, ps: seq<Packet>, t: nat)
    requires Idle(s) && s.fifo == [] && s.metas == [] && AllValid(ps)
    ensures Stands(s, c, ps, s.ptr, 0, 0, Before(0), [])
    ensures Since(ps, [], t) == 0
  {
    assert ps[..0] == [];
    assert BeatsOf(ps)[0..0] == [] && MetasOf(ps)[0..0] == [];
  }

  lemma {:induction false} SinceStep(ps: seq<Packet>, ins: seq<Input>, t: nat)
    requires ins != [] && |ArrivedMetas(ins)| <= |ps|
    ensures var front := ins[..|ins| - 1];
            && Since(ps, ins, t) <= Since(ps, front, t) + 1
            && (Since(ps, ins, t) > 0 ==> |ArrivedMetas(front)| == |ps|)
  {
    var front := ins[..|ins| - 1];
    if t < |ins| {
      assert front[..t] == ins[..t];
      MetasOnlyGrow(front, t);
    }
  }

  lemma {:induction false} MetasOnlyGrow(ins: seq<Input>, t: nat)
    requires t <= |ins|
    ensures |ArrivedMetas(ins[..t])| <= |ArrivedMetas(ins)|
    decreases |ins|
  {
    if t < |ins| {
      MetasOnlyGrow(ins[..|ins| - 1], t);
      assert ins[..|ins| - 1][..t] == ins[..t];
    } else {
      assert ins[..t] == ins;
    }
  }

  // While packets arrive in any rhythm, their metadata never before their beats, what the sender has emitted is
  // at every clock a prefix of their TLPs, each at the pointer the ones before it leave.  Between packets with
  // no metadata staged it is the TLPs of all the packets so far, and the queues hold only the beats of
  // packets still to be completed.  Packets are dropped while the pointer is zero or the identity unknown.
  lemma {:induction false} PacketsSent(s: State, c: Config, ps: seq<Packet>, ins: seq<Input>)
    requires Idle(s) && s.fifo == [] && s.metas == [] && AllValid(ps) && Feeds(ps, ins) && AllUndisturbed(c, ins)
    ensures var s', n := Run(s, ins), |ArrivedMetas(ins)|;
            && n <= |ps|
            && Emitted(s, ins) <= Joined(Tlps(c, s.ptr, ps[..n])) <= Joined(Tlps(c, s.ptr, ps))
            && (Idle(s') && s'.metas == [] ==>
                  && Emitted(s, ins) == Joined(Tlps(c, s.ptr, ps[..n]))
                  && s'.ptr == PtrAfterAll(c, s.ptr, ps[..n])
                  && s'.fifo == BeatsFrom(ps, n, |ArrivedBeats(ins)|))
  {
    var at := RunStands(s, c, ps, ins, 0);
    StandsMeans(Run(s, ins), c, ps, s.ptr, |ArrivedBeats(ins)|, |ArrivedMetas(ins)|, at, Emitted(s, ins));
  }

  lemma {:induction false} StandsMeans(s: State, c: Config, ps: seq<Packet>, ptr: nat, nb: nat, nm: nat,
                                       at: Progress, sent: seq<TlpBeat>)
    requires Stands(s, c, ps, ptr, nb, nm, at, sent)
    ensures nm <= |ps| && sent <= Joined(Tlps(c, ptr, ps[..nm])) <= Joined(Tlps(c, ptr, ps))
    ensures Idle(s) && s.metas == [] ==>
              sent == Joined(Tlps(c, ptr, ps[..nm])) && s.ptr == PtrAfterAll(c, ptr, ps[..nm]) &&
              s.fifo == BeatsFrom(ps, nm, nb)
  {
    hide Joined, Tlps, PtrAfterAll, Rest, BeatsFrom, BeatsLeft, DataLeft;
    assert ps[..|ps|] == ps;
    TlpsGrow(c, ptr, ps, nm, |ps|);
    TlpsGrow(c, ptr, ps, if at.Before? then at.k else at.k + 1, nm);
  }

  lemma {:induction false} TlpsGrow(c: Config, ptr: nat, ps: seq<Packet>, k: nat, m: nat)
    requires k <= m <= |ps|
    ensures Joined(Tlps(c, ptr, ps[..k])) <= Joined(Tlps(c, ptr, ps[..m]))
    decreases m
  {
    if k < m {
      TlpsGrow(c, ptr, ps, k, m - 1);
      NextTlp(c, ptr, ps, m - 1);
    }
  }

  // Once the last packet has arrived, the sender needs one clock for each header and each beat, and then every
  // packet has gone out.
  lemma {:induction false} AllPacketsSent(s: State, c: Config, ps: seq<Packet>, ins: seq<Input>, t: nat)
    requires Idle(s) && s.fifo == [] && s.metas == [] && AllValid(ps) && Feeds(ps, ins) && AllUndisturbed(c, ins)
    requires t + Clocks(ps) <= |ins| && ArrivedMetas(ins[..t]) == MetasOf(ps)
    ensures Emitted(s, ins) == Joined(Tlps(c, s.ptr, ps))
    ensures var s' := Run(s, ins);
            Idle(s') && s'.fifo == [] && s'.metas == [] && s'.ptr == PtrAfterAll(c, s.ptr, ps)
  {
    hide Run, Emitted, Tlps, Joined, PtrAfterAll, ArrivedBeats, ArrivedMetas, Clocks, Position, Stands, Feeds, Idle;
    var at := RunStands(s, c, ps, ins, t);
    MetasOnlyGrow(ins, t);
    StandsAtEnd(Run(s, ins), c, ps, s.ptr, |ArrivedBeats(ins)|, |ArrivedMetas(ins)|, at, Emitted(s, ins));
  }

  lemma {:induction false} StandsAtEnd(s: State, c: Config, ps: seq<Packet>, ptr: nat, nb: nat, nm: nat,
                                       at: Progress, sent: seq<TlpBeat>)
    requires Stands(s, c, ps, ptr, nb, nm, at, sent) && at.k <= |ps| && Position(ps, at) >= Clocks(ps)
    ensures sent == Joined(Tlps(c, ptr, ps)) && Idle(s) && s.fifo == [] && s.metas == []
    ensures s.ptr == PtrAfterAll(c, ptr, ps)
  {
    hide Tlps, Joined, PtrAfterAll, BeatsOf;
    assert ps[..|ps|] == ps;
    AtTheEnd(ps, at);
  }

  lemma {:induction false} AtTheEnd(ps: seq<Packet>, at: Progress)
    requires at.k <= |ps| && Position(ps, at) >= Clocks(ps)
    requires at.Inside? ==> at.k < |ps| && BeatsLeft(ps[at.k], at.j) != []
    ensures at == Before(|ps|)
  {
    if at.k < |ps| {
      OnePacketMore(ps, at.k);
      assert false;
    }
    assert ps[..|ps|] == ps;
  }

  lemma {:induction false} OnePacketMore(ps: seq<Packet>, k: nat)
    requires k < |ps|
    ensures Clocks(ps[..k]) + 1 + |ps[k].beats| <= Clocks(ps)
  {
    ClocksGrow(ps, k + 1);
    assert ps[..k + 1][..k] == ps[..k];
  }

  lemma {:induction false} ClocksGrow(ps: seq<Packet>, k: nat)
    requires k <= |ps|
    ensures Clocks(ps[..k]) <= Clocks(ps)
    decreases |ps|
  {
    if k < |ps| {
      ClocksGrow(ps[..|ps| - 1], k);
      assert ps[..|ps| - 1][..k] == ps[..k];
    } else {
      assert ps[..k] == ps;
    }
  }

  // ----- In a sound window -----

  lemma {:induction false} PtrsStayInWindow(c: Config, ptr: nat, ps: seq<Packet>)
    requires WindowOk(c) && !TopSlot(c) && InWindow(c, ptr)
    ensures InWindow(c, PtrAfterAll(c, ptr, ps))
  {
    hide PtrAfter, InWindow, WindowOk, TopSlot;
    if ps != [] {
      PtrsStayInWindow(c, ptr, ps[..|ps| - 1]);
      PtrStaysInWindow(c, PtrAfterAll(c, ptr, ps[..|ps| - 1]), ps[|ps| - 1]);
    }
  }

  // With a sound window and the identity known, no packet is dropped: the i-th TLP belongs to the i-th packet
  // and is sent at a pointer inside the window.
  lemma {:induction false} TlpAt(c: Config, ptr: nat, ps: seq<Packet>, i: nat)
    requires WindowOk(c) && !TopSlot(c) && InWindow(c, ptr) && c.idValid && i < |ps|
    ensures |Tlps(c, ptr, ps)| == |ps|
    ensures Tlps(c, ptr, ps)[i] == TlpOf(c, PtrAfterAll(c, ptr, ps[..i]), ps[i])
    ensures InWindow(c, PtrAfterAll(c, ptr, ps[..i]))
    decreases |ps|
  {
    var n := |ps| - 1;
    var front := ps[..n];
    PtrsStayInWindow(c, ptr, front);
    PtrStaysInWindow(c, PtrAfterAll(c, ptr, front), ps[n]);
    hide TlpOf, PtrAfter, InWindow, WindowOk, TopSlot, PtrAfterAll;
    if i < n {
      TlpAt(c, ptr, front, i);
      assert front[..i] == ps[..i];
    } else if n > 0 {
      TlpAt(c, ptr, front, 0);
    }
  }

  // The slots of a window that are in use: all but the last one, unless it is the only one
  function Slots(c: Config): (k: nat)
    ensures k > 0
  {
    if c.end < c.start + 2 * 4096 then 1 else (c.end - c.start) / 4096 - 1
  }

  // A packet moves the pointer by one slot, or by two if it is cut.
  function SlotsTaken(ps: seq<Packet>): nat
  {
    if ps == [] then 0 else SlotsTaken(ps[..|ps| - 1]) + if |ps[|ps| - 1].data| <= 56 then 1 else 2
  }

  // Slot n of the window, round and round
  function SlotAt(c: Config, n: nat): nat
  {
    c.start + 4096 * (n % Slots(c))
  }

  lemma {:induction false} Wraps(n: nat, q: nat, k: nat)
    requires n == q * k + (k - 1) && k > 0
    ensures (n + 1) % k == 0
  {
    assert n + 1 == (q + 1) * k + 0;
    LastDigit(q + 1, 0, k);
  }

  lemma {:induction false} NextInTurn(n: nat, k: nat)
    requires k > 0
    ensures (n + 1) % k == if n % k + 1 == k then 0 else n % k + 1
  {
    SlotBelow(n, k);
    if n % k + 1 == k {
      Wraps(n, n / k, k);
    } else {
      LastDigit(n / k, n % k + 1, k);
    }
  }

  lemma {:induction false} AdvanceTakesSlot(c: Config, n: nat)
    requires WindowOk(c) && !TopSlot(c)
    ensures SlotAt(c, n) != 0 && Advance(c, SlotAt(c, n)) == SlotAt(c, n + 1)
  {
    hide Advance, WindowOk, TopSlot, Slots;
    NextInTurn(n, Slots(c));
    SlotBelow(n, Slots(c));
    AdvanceFrom(c, n % Slots(c));
  }

  lemma {:induction false} AdvanceFrom(c: Config, m: nat)
    requires WindowOk(c) && !TopSlot(c) && m < Slots(c)
    ensures c.start > 0
    ensures Advance(c, c.start + 4096 * m) == c.start + 4096 * if m + 1 == Slots(c) then 0 else m + 1
  {
  }

  // From any slot of a sound window, packets take the slots one after the other, those that are cut two each,
  // and after the last slot in use the first.
  lemma {:induction false} SlotsInTurn(c: Config, n: nat, ps: seq<Packet>)
    requires WindowOk(c) && !TopSlot(c) && c.idValid
    ensures PtrAfterAll(c, SlotAt(c, n), ps) == SlotAt(c, n + SlotsTaken(ps))
  {
    hide Advance, SlotAt, WindowOk, TopSlot;
    if ps != [] {
      var front := ps[..|ps| - 1];
      SlotsInTurn(c, n, front);
      AdvanceTakesSlot(c, n + SlotsTaken(front));
      AdvanceTakesSlot(c, n + SlotsTaken(front) + 1);
    }
  }

  // The i-th TLP is written to the slot that the packets before it have left for it.
  lemma {:induction false} TlpSlot(c: Config, n: nat, ps: seq<Packet>, i: nat)
    requires WindowOk(c) && !TopSlot(c) && c.idValid && i < |ps| && ps[i].Valid()
    ensures |Tlps(c, SlotAt(c, n), ps)| == |ps|
    ensures var t := Tlps(c, SlotAt(c, n), ps)[i];
            Framed(t) && Says(c, SlotAt(c, n + SlotsTaken(ps[..i])), ps[i], 4, t) &&
            t[0].dwords[2] == c.start + 4096 * ((n + SlotsTaken(ps[..i])) % Slots(c))
  {
    hide *;
    SlotAligned(c, n);
    TlpAt(c, SlotAt(c, n), ps, i);
    SlotsInTurn(c, n, ps[..i]);
    SlotCarries(c, n + SlotsTaken(ps[..i]), ps[i]);
  }

  // A slot is aligned, so that three dwords of padding follow the metadata.
  lemma {:induction false} SlotCarries(c: Config, n: nat, p: Packet)
    requires WindowOk(c) && p.Valid()
    ensures var t := TlpOf(c, SlotAt(c, n), p);
            Framed(t) && Says(c, SlotAt(c, n), p, 4, t) && t[0].dwords[2] == c.start + 4096 * (n % Slots(c))
  {
    SlotAligned(c, n);
    TlpCarries(c, SlotAt(c, n), p);
    hide Framed, Payload, TlpOf, HostBytes, Characters, WindowOk, Slots;
  }

  lemma {:induction false} LastSlot(c: Config, m: nat)
    requires WindowOk(c) && m < Slots(c)
    ensures var p := c.start + 4096 * m;
            InWindow(c, p) && p / 4 % 2 == 0 && p / 4 * 4 == p
  {
    var s, e := c.start / 4096, c.end / 4096;
    PageAligned(s + m);
    assert c.start == 4096 * s && c.end == 4096 * e;
    assert Slots(c) == if e < s + 2 then 1 else e - s - 1;
    hide Slots;
  }

  lemma {:induction false} PageAligned(n: nat)
    ensures var p := 4096 * n;
            p % 4096 == 0 && p / 4 % 2 == 0 && p / 4 * 4 == p
  {
    LastDigit(n, 0, 4096);
    LastDigit(1024 * n, 0, 4);
    LastDigit(512 * n, 0, 2);
  }

  lemma {:induction false} SlotBelow(n: nat, k: nat)
    requires k > 0
    ensures n % k < k && n == n / k * k + n % k
  {
  }

  lemma {:induction false} SlotAligned(c: Config, n: nat)
    requires WindowOk(c)
    ensures InWindow(c, SlotAt(c, n)) && SlotAt(c, n) / 4 % 2 == 0 && SlotAt(c, n) / 4 * 4 == SlotAt(c, n)
  {
    hide Slots, WindowOk, InWindow;
    SlotBelow(n, Slots(c));
    LastSlot(c, n % Slots(c));
  }
}
