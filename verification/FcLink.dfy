/** Two ports joined by FIFO word delays: the link initialises itself from any contents.

    The ports run on one word clock, receive a valid word at every clock and are not reset.
    Levels order the states and the words in flight by how far the initialisation has come.  The
    lowest level on the link never falls, and every level below AC drains within one round trip.
 */
module FcLink {
  import opened FcPrimitives
  import opened FcPort

  // ----- The link -----

  // The words on the lines are oldest first; a line of no words is a direct connection.
  datatype Link = Link(a: Port, b: Port, ab: seq<TxWord>, ba: seq<TxWord>)

  datatype Traffic = Traffic(a: User, b: User)

  function LineHead(line: seq<TxWord>, tx: TxWord): TxWord
  {
    if line == [] then tx else line[0]
  }

  function LineShift(line: seq<TxWord>, tx: TxWord): seq<TxWord>
  {
    if line == [] then [] else line[1..] + [tx]
  }

  function LinkStep(l: Link, t: Traffic): Link
  {
    Link(PortStep(l.a, false, LineHead(l.ba, l.b.tx), t.a),
         PortStep(l.b, false, LineHead(l.ab, l.a.tx), t.b),
         LineShift(l.ab, l.a.tx),
         LineShift(l.ba, l.b.tx))
  }

  // n clocks without user traffic
  function QuietRun(l: Link, n: nat): Link
    decreases n
  {
    if n == 0 then l else LinkStep(QuietRun(l, n - 1), Traffic(QUIET, QUIET))
  }

  function TrafficRun(l: Link, ts: seq<Traffic>): Link
    decreases |ts|
  {
    if ts == [] then l else LinkStep(TrafficRun(l, ts[..|ts| - 1]), ts[|ts| - 1])
  }

  // ----- The link as two states and two queues of signals -----

  // Everything between a state register and the far receiver is one queue of signals: the line,
  // the transmit register and the three state transfer registers, oldest first.
  datatype Loop = Loop(sa: PortState, sb: PortState, qa: seq<Primitive>, qb: seq<Primitive>)

  function LoopStep(l: Loop): Loop
    requires l.qa != [] && l.qb != []
  {
    Loop(Next(l.sa, l.qb[0]), Next(l.sb, l.qa[0]), l.qa[1..] + [Emits(l.sa)], l.qb[1..] + [Emits(l.sb)])
  }

  function LoopRun(l: Loop, n: nat): (r: Loop)
    requires l.qa != [] && l.qb != []
    ensures |r.qa| == |l.qa| && |r.qb| == |l.qb|
    decreases n
  {
    if n == 0 then l else LoopStep(LoopRun(l, n - 1))
  }

  function Signals(ws: seq<TxWord>): (ps: seq<Primitive>)
    ensures |ps| == |ws|
  {
    seq(|ws|, i requires 0 <= i < |ws| => Signal(ws[i]))
  }

  function Queue(p: Port, line: seq<TxWord>): (q: seq<Primitive>)
    ensures |q| == |line| + 4
  {
    Signals(line + [p.tx]) + [Emits(p.xfered), Emits(p.cdc2), Emits(p.cdc1)]
  }

  function Abstract(l: Link): Loop
  {
    Loop(l.a.state, l.b.state, Queue(l.a, l.ab), Queue(l.b, l.ba))
  }

  lemma QueueShifts(p: Port, rx: TxWord, line: seq<TxWord>)
    ensures Queue(p, line)[0] == Signal(LineHead(line, p.tx))
    ensures Queue(PortStep(p, false, rx, QUIET), LineShift(line, p.tx)) ==
              Queue(p, line)[1..] + [Emits(p.state)]
  {
    var p' := PortStep(p, false, rx, QUIET);
    StateWordSignals(p.xfered);
    var words := line + [p.tx];
    assert LineShift(line, p.tx) == words[1..];
    assert Signals(words[1..] + [p'.tx]) == Signals(words)[1..] + [Emits(p.xfered)];
  }

  lemma {:induction false} QuietStepIsLoopStep(l: Link)
    ensures Abstract(LinkStep(l, Traffic(QUIET, QUIET))) == LoopStep(Abstract(l))
  {
    QueueShifts(l.a, LineHead(l.ba, l.b.tx), l.ab);
    QueueShifts(l.b, LineHead(l.ab, l.a.tx), l.ba);
  }

  lemma {:induction false} QuietRunIsLoopRun(l: Link, n: nat)
    ensures Abstract(QuietRun(l, n)) == LoopRun(Abstract(l), n)
  {
    hide LinkStep, LoopStep, Abstract;
    if n > 0 {
      QuietRunIsLoopRun(l, n - 1);
      QuietStepIsLoopStep(QuietRun(l, n - 1));
    }
  }

  lemma {:induction false} LoopRunAdds(l: Loop, m: nat, n: nat)
    requires l.qa != [] && l.qb != []
    ensures LoopRun(l, m + n) == LoopRun(LoopRun(l, m), n)
    decreases n
  {
    if n > 0 {
      LoopRunAdds(l, m, n - 1);
    }
  }

  // ----- Levels -----

  const TOP: nat := 5

  function Level(s: PortState): (k: nat)
    ensures k <= TOP
  {
    match s
    case LF2 => 0 case OL3 => 0
    case LF1 => 1 case OL1 => 1
    case OL2 => 2 case LR1 => 2
    case LR2 => 3
    case LR3 => 4
    case AC => 5
  }

  // The level of a signal; signals that move no port are at the top.
  function SignalLevel(p: Primitive): (k: nat)
    ensures k <= TOP
  {
    match p
    case PrimNos => 0
    case PrimOls => 1
    case PrimLr => 2
    case PrimLrr => 3
    case PrimIdle => 4
    case _ => 5
  }

  // What every state of level k transmits
  function SignalOf(k: nat): Primitive
    requires k <= TOP
  {
    if k == 0 then PrimNos else if k == 1 then PrimOls else if k == 2 then PrimLr
    else if k == 3 then PrimLrr else if k == 4 then PrimIdle else PrimArbFf
  }

  lemma EmitsItsLevel(s: PortState)
    ensures Emits(s) == SignalOf(Level(s))
    ensures SignalLevel(Emits(s)) == Level(s)
  {
  }

  lemma NextNeverDrops(s: PortState, p: Primitive, k: nat)
    requires Level(s) >= k && SignalLevel(p) >= k
    ensures Level(Next(s, p)) >= k
    ensures k < TOP && Level(s) > k ==> Level(Next(s, p)) > k
  {
  }

  lemma NextFollows(s: PortState, k: nat)
    requires k < TOP
    ensures Level(s) >= k ==> Level(Next(s, SignalOf(k))) == k + 1
    ensures Level(s) == k ==> Level(Next(s, SignalOf(k + 1))) > k
  {
  }

  ghost predicate QueueAbove(q: seq<Primitive>, k: nat)
  {
    forall i :: 0 <= i < |q| ==> SignalLevel(q[i]) >= k
  }

  // Nothing on the link is below level k.
  ghost predicate Above(l: Loop, k: nat)
  {
    Level(l.sa) >= k && Level(l.sb) >= k && QueueAbove(l.qa, k) && QueueAbove(l.qb, k)
  }

  ghost predicate Connected(l: Loop)
  {
    l.qa != [] && l.qb != []
  }

  lemma AboveStep(l: Loop, k: nat)
    requires Connected(l) && Above(l, k)
    ensures Above(LoopStep(l), k)
    ensures k < TOP && Level(l.sa) > k ==> Level(LoopStep(l).sa) > k
    ensures k < TOP && Level(l.sb) > k ==> Level(LoopStep(l).sb) > k
  {
    NextNeverDrops(l.sa, l.qb[0], k);
    NextNeverDrops(l.sb, l.qa[0], k);
    EmitsItsLevel(l.sa);
    EmitsItsLevel(l.sb);
  }

  // The lowest level on the link never falls.
  lemma {:induction false} AboveForever(l: Loop, k: nat, n: nat)
    requires Connected(l) && Above(l, k)
    ensures Above(LoopRun(l, n), k)
    ensures k < TOP && Level(l.sa) > k ==> Level(LoopRun(l, n).sa) > k
    ensures k < TOP && Level(l.sb) > k ==> Level(LoopRun(l, n).sb) > k
    decreases n
  {
    if n > 0 {
      AboveForever(l, k, n - 1);
      AboveStep(LoopRun(l, n - 1), k);
    }
  }

  // ----- A state at the lowest level leaves it within one round trip -----

  // The newest j entries of q (all of them if there are fewer) are p.
  ghost predicate Newest(q: seq<Primitive>, j: int, p: Primitive)
  {
    forall i :: 0 <= i < |q| && |q| - j <= i ==> q[i] == p
  }

  lemma NewestShifts(q: seq<Primitive>, j: nat, p: Primitive)
    requires q != [] && Newest(q, j, p)
    ensures Newest(q[1..] + [p], j + 1, p)
  {
  }

  // Port a has been at level k for j clocks.  Its words fill the line to b; once they arrive they
  // pin b one level higher, and then the words of b fill the line back.
  ghost predicate Waiting(l: Loop, k: nat, j: nat)
    requires k < TOP
  {
    && Connected(l) && Above(l, k) && Level(l.sa) == k
    && Newest(l.qa, j, SignalOf(k))
    && (j > |l.qa| ==> Level(l.sb) == k + 1 && Newest(l.qb, j - |l.qa| - 1, SignalOf(k + 1)))
  }

  lemma {:induction false} WaitingStep(l: Loop, k: nat, j: nat)
    requires k < TOP && Waiting(l, k, j)
    ensures Level(LoopStep(l).sa) > k || Waiting(LoopStep(l), k, j + 1)
    ensures j > |l.qa| + |l.qb| ==> Level(LoopStep(l).sa) > k
  {
    AboveStep(l, k);
    EmitsItsLevel(l.sa);
    EmitsItsLevel(l.sb);
    NewestShifts(l.qa, j, SignalOf(k));
    NextFollows(l.sa, k);
    NextFollows(l.sb, k);
    if j > |l.qa| {
      NewestShifts(l.qb, j - |l.qa| - 1, SignalOf(k + 1));
    }
  }

  lemma {:induction false} WaitingRun(l: Loop, k: nat, n: nat)
    requires k < TOP && Waiting(l, k, 0)
    ensures Level(LoopRun(l, n).sa) > k || Waiting(LoopRun(l, n), k, n)
    decreases n
  {
    if n > 0 {
      WaitingRun(l, k, n - 1);
      var m := LoopRun(l, n - 1);
      if Level(m.sa) > k {
        AboveForever(l, k, n - 1);
        AboveStep(m, k);
      } else {
        WaitingStep(m, k, n - 1);
      }
    }
  }

  lemma StateClimbs(l: Loop, k: nat)
    requires k < TOP && Connected(l) && Above(l, k)
    ensures Level(LoopRun(l, |l.qa| + |l.qb| + 2).sa) > k
  {
    hide LoopStep, Level, SignalLevel, SignalOf, QueueAbove;
    var n := |l.qa| + |l.qb| + 1;
    if Level(l.sa) > k {
      AboveForever(l, k, n + 1);
    } else {
      assert Waiting(l, k, 0);
      hide Waiting, Above, Newest;
      WaitingRun(l, k, n);
      var m := LoopRun(l, n);
      AboveForever(l, k, n);
      if Level(m.sa) > k {
        AboveStep(m, k);
      } else {
        WaitingStep(m, k, n);
      }
    }
  }

  function Swap(l: Loop): Loop
  {
    Loop(l.sb, l.sa, l.qb, l.qa)
  }

  lemma {:induction false} SwapRun(l: Loop, n: nat)
    requires Connected(l)
    ensures LoopRun(Swap(l), n) == Swap(LoopRun(l, n))
    decreases n
  {
    if n > 0 {
      SwapRun(l, n - 1);
    }
  }

  // ----- Then the queues drain -----

  ghost predicate NewestAbove(q: seq<Primitive>, j: int, k: nat)
  {
    forall i :: 0 <= i < |q| && |q| - j <= i ==> SignalLevel(q[i]) >= k
  }

  lemma {:induction false} QueuesDrain(l: Loop, k: nat, n: nat)
    requires k < TOP && Connected(l) && Above(l, k)
    requires Level(l.sa) > k && Level(l.sb) > k
    ensures NewestAbove(LoopRun(l, n).qa, n, k + 1) && NewestAbove(LoopRun(l, n).qb, n, k + 1)
    ensures Level(LoopRun(l, n).sa) > k && Level(LoopRun(l, n).sb) > k
    decreases n
  {
    hide Next, Emits, SignalLevel;
    AboveForever(l, k, n);
    if n > 0 {
      QueuesDrain(l, k, n - 1);
      var m := LoopRun(l, n - 1);
      EmitsItsLevel(m.sa);
      EmitsItsLevel(m.sb);
    }
  }

  // A whole level passes in twice the round trip and two clocks.
  function LevelTime(l: Loop): nat
  {
    2 * (|l.qa| + |l.qb|) + 2
  }

  lemma LevelDrains(l: Loop, k: nat)
    requires k < TOP && Connected(l) && Above(l, k)
    ensures Above(LoopRun(l, LevelTime(l)), k + 1)
  {
    hide LoopStep, SignalLevel;
    var trip := |l.qa| + |l.qb|;
    StateClimbs(l, k);
    SwapRun(l, trip + 2);
    StateClimbs(Swap(l), k);
    AboveForever(l, k, trip + 2);
    var m := LoopRun(l, trip + 2);
    QueuesDrain(m, k, trip);
    LoopRunAdds(l, trip + 2, trip);
  }

  lemma {:induction false} LevelsDrain(l: Loop, k: nat)
    requires k <= TOP && Connected(l)
    ensures Above(LoopRun(l, k * LevelTime(l)), k)
  {
    hide LoopStep;
    if k > 0 {
      var t := LevelTime(l);
      LevelsDrain(l, k - 1);
      var m := LoopRun(l, (k - 1) * t);
      LevelDrains(m, k - 1);
      LoopRunAdds(l, (k - 1) * t, t);
      assert (k - 1) * t + t == k * t;
    }
  }

  // ----- The link comes up -----

  // Both ports are Active, and nothing on the way can move them.
  ghost predicate Settled(l: Link)
  {
    Above(Abstract(l), TOP)
  }

  // dA and dB are the word delays of the two lines.
  function Bound(dA: nat, dB: nat): nat
  {
    10 * (dA + dB) + 90
  }

  // After a bound linear in the delays nothing on the link is below AC.
  lemma {:induction false} LinkSettles(l: Link, n: nat)
    requires n >= Bound(|l.ab|, |l.ba|)
    ensures Settled(QuietRun(l, n))
  {
    hide LinkStep, LoopStep;
    var loop := Abstract(l);
    var t := TOP * LevelTime(loop);
    assert t == Bound(|l.ab|, |l.ba|);
    LevelsDrain(loop, TOP);
    AboveForever(LoopRun(loop, t), TOP, n - t);
    LoopRunAdds(loop, t, n - t);
    QuietRunIsLoopRun(l, n);
  }

  // From any states of the two ports, any contents of their registers and any words on the lines,
  // both ports reach AC within that bound and, while no user sends, stay there.
  lemma {:induction false} LinkComesUp(l: Link, n: nat)
    requires n >= Bound(|l.ab|, |l.ba|)
    ensures QuietRun(l, n).a.state == AC && QuietRun(l, n).b.state == AC
  {
    hide QuietRun;
    LinkSettles(l, n);
  }

  lemma {:induction false} QuietRunAdds(l: Link, m: nat, n: nat)
    ensures QuietRun(l, m + n) == QuietRun(QuietRun(l, m), n)
    decreases n
  {
    hide LinkStep;
    if n > 0 {
      QuietRunAdds(l, m, n - 1);
    }
  }

  lemma {:induction false} HoldOffStays(l: Link, n: nat)
    requires l.a.holdOff <= HOLD_OFF && l.b.holdOff <= HOLD_OFF
    ensures QuietRun(l, n).a.holdOff <= HOLD_OFF && QuietRun(l, n).b.holdOff <= HOLD_OFF
  {
    hide LinkStep;
    if n > 0 {
      HoldOffStays(l, n - 1);
      HoldOffStep(QuietRun(l, n - 1));
    }
  }

  lemma HoldOffStep(l: Link)
    requires l.a.holdOff <= HOLD_OFF && l.b.holdOff <= HOLD_OFF
    ensures LinkStep(l, Traffic(QUIET, QUIET)).a.holdOff <= HOLD_OFF
    ensures LinkStep(l, Traffic(QUIET, QUIET)).b.holdOff <= HOLD_OFF
  {
    hide Next, Signal, StateWord;
  }

  lemma {:induction false} HoldOffDrains(l: Link, n: nat)
    requires l.a.holdOff <= HOLD_OFF && l.b.holdOff <= HOLD_OFF
    requires forall m :: 0 <= m <= n ==> QuietRun(l, m).a.state == AC && QuietRun(l, m).b.state == AC
    ensures QuietRun(l, n).a.holdOff + n <= HOLD_OFF || QuietRun(l, n).a.holdOff == 0
    ensures QuietRun(l, n).b.holdOff + n <= HOLD_OFF || QuietRun(l, n).b.holdOff == 0
  {
    hide Next, Signal, StateWord;
    if n > 0 {
      HoldOffDrains(l, n - 1);
    }
  }

  // Six clocks later both ports report active, for good.
  lemma LinkBecomesActive(l: Link, n: nat)
    requires l.a.holdOff <= HOLD_OFF && l.b.holdOff <= HOLD_OFF
    requires n >= Bound(|l.ab|, |l.ba|) + HOLD_OFF
    ensures QuietRun(l, n).a.Active() && QuietRun(l, n).b.Active()
  {
    hide LinkStep;
    var bound := Bound(|l.ab|, |l.ba|);
    var up := QuietRun(l, bound);
    HoldOffStays(l, bound);
    forall m: nat | 0 <= m <= n - bound
      ensures QuietRun(up, m).a.state == AC && QuietRun(up, m).b.state == AC
    {
      QuietRunAdds(l, bound, m);
      LinkComesUp(l, bound + m);
    }
    HoldOffDrains(up, n - bound);
    QuietRunAdds(l, bound, n - bound);
  }

  // ----- Traffic does not take the link down -----

  // Any word but NOS, OLS, LR and LRR
  predicate Harmless(w: TxWord)
  {
    w.datak != 8 || w.data !in {0xBC55_BF45, 0xBC35_8A55, 0xBC49_BF49, 0xBC35_BF49}
  }

  // Exactly these words leave a receiver in AC.
  lemma HarmlessStaysActive(w: TxWord)
    ensures Harmless(w) <==> Next(AC, Signal(w)) == AC
    ensures Harmless(w) <==> SignalLevel(Signal(w)) == TOP || Signal(w) == PrimIdle
  {
  }

  predicate HarmlessUser(u: User)
  {
    u.valid ==> Harmless(UserWord(u))
  }

  ghost predicate Carries(p: Port, line: seq<TxWord>)
  {
    && p.state == AC && p.cdc1 == AC && p.cdc2 == AC && p.xfered == AC
    && Harmless(p.tx)
    && forall i :: 0 <= i < |line| ==> Harmless(line[i])
  }

  // Everything in flight is harmless and the transfer registers hold AC.
  ghost predicate Up(l: Link)
  {
    Carries(l.a, l.ab) && Carries(l.b, l.ba)
  }

  lemma CarriesStep(p: Port, rx: TxWord, u: User, line: seq<TxWord>)
    requires Carries(p, line) && Harmless(rx) && HarmlessUser(u)
    ensures Carries(PortStep(p, false, rx, u), LineShift(line, p.tx))
    ensures PortStep(p, false, rx, u).holdOff <= p.holdOff
  {
    StateWordSignals(AC);
  }

  // Once up, the link stays up under every traffic that holds no NOS, OLS, LR or LRR.
  lemma {:induction false} TrafficKeepsLinkUp(l: Link, ts: seq<Traffic>)
    requires Up(l)
    requires forall i :: 0 <= i < |ts| ==> HarmlessUser(ts[i].a) && HarmlessUser(ts[i].b)
    ensures Up(TrafficRun(l, ts))
    ensures l.a.Active() ==> TrafficRun(l, ts).a.Active()
    ensures l.b.Active() ==> TrafficRun(l, ts).b.Active()
    decreases |ts|
  {
    if ts != [] {
      TrafficKeepsLinkUp(l, ts[..|ts| - 1]);
      var m := TrafficRun(l, ts[..|ts| - 1]);
      var t := ts[|ts| - 1];
      CarriesStep(m.a, LineHead(m.ba, m.b.tx), t.a, m.ab);
      CarriesStep(m.b, LineHead(m.ab, m.a.tx), t.b, m.ba);
    }
  }

  lemma QueueAtTop(p: Port, line: seq<TxWord>)
    requires p.state == AC && QueueAbove(Queue(p, line), TOP)
    ensures Carries(p, line)
  {
    var q := Queue(p, line);
    assert q[|line|] == Signal(p.tx);
    assert q[|line| + 1] == Emits(p.xfered);
    assert q[|line| + 2] == Emits(p.cdc2);
    assert q[|line| + 3] == Emits(p.cdc1);
    EmitsItsLevel(p.xfered);
    EmitsItsLevel(p.cdc2);
    EmitsItsLevel(p.cdc1);
    forall i | 0 <= i < |line|
      ensures Harmless(line[i])
    {
      assert q[i] == Signal(line[i]);
    }
  }

  // Initialisation and traffic together: after the bound, any harmless traffic finds both ports
  // active and leaves them so.
  lemma LinkServesTraffic(l: Link, n: nat, ts: seq<Traffic>)
    requires l.a.holdOff <= HOLD_OFF && l.b.holdOff <= HOLD_OFF
    requires n >= Bound(|l.ab|, |l.ba|) + HOLD_OFF
    requires forall i :: 0 <= i < |ts| ==> HarmlessUser(ts[i].a) && HarmlessUser(ts[i].b)
    ensures var end := TrafficRun(QuietRun(l, n), ts);
            end.a.state == AC && end.b.state == AC && end.a.Active() && end.b.Active()
  {
    LinkBecomesActive(l, n);
    LinkSettles(l, n);
    var m := QuietRun(l, n);
    QueueAtTop(m.a, m.ab);
    QueueAtTop(m.b, m.ba);
    TrafficKeepsLinkUp(m, ts);
  }
}
