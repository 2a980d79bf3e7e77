/** The bridge from PCI Express memory requests to the card's Avalon bus
    (ip/fejkon_pcie_avalon/fejkon_pcie_avalon.sv): one access at a time, one response for each read.

    The response sink is always ready, as the bridge takes for granted.
 */
module AvalonBridge {
  import opened Bits

  // ----- Requests and responses as words -----

  datatype Request =
    | Write(address: nat, data: nat)
    | Read(address: nat, requester: nat, tag: nat)

  datatype Response = Response(requester: nat, tag: nat, lowerAddress: nat, data: nat)

  function AddressOf(w: nat): nat
  {
    Field(w, 0x2_0000_0000, 0x4000_0000) * 4
  }

  // The fields of a request word
  function RequestOf(w: nat): Request
  {
    if w % 2 == 1 then Write(AddressOf(w), Field(w, 2, 0x1_0000_0000))
    else Read(AddressOf(w), Field(w, 2, 0x1_0000), Field(w, 0x2_0000, 256))
  }

  // Bit 0 tells a write from a read; a write has its data above it, a read its requester and its tag, and both the
  // address in words from bit 33 on.  What is above bit 62 and what a read has between tag and address does not
  // matter.
  lemma {:induction false} RequestLayout(address: nat, data: nat, requester: nat, tag: nat, spare: nat, high: nat)
    requires address % 4 == 0 && address < 0x1_0000_0000 && data < 0x1_0000_0000
    requires requester < 0x1_0000 && tag < 0x100 && spare < 0x100
    ensures RequestOf(high * 0x8000_0000_0000_0000 + address / 4 * 0x2_0000_0000 + data * 2 + 1) ==
            Write(address, data)
    ensures RequestOf(high * 0x8000_0000_0000_0000 + address / 4 * 0x2_0000_0000 + spare * 0x200_0000 + tag * 0x2_0000 +
                      requester * 2) == Read(address, requester, tag)
  {
    var a := address / 4;
    var w := high * 0x8000_0000_0000_0000 + a * 0x2_0000_0000 + data * 2 + 1;
    FieldOf(w, data * 2 + 1, a, high, 0x2_0000_0000, 0x4000_0000);
    FieldOf(w, 1, data, a + high * 0x4000_0000, 2, 0x1_0000_0000);
    var low := spare * 0x200_0000 + tag * 0x2_0000 + requester * 2;
    var r := high * 0x8000_0000_0000_0000 + a * 0x2_0000_0000 + low;
    FieldOf(r, low, a, high, 0x2_0000_0000, 0x4000_0000);
    var rest := spare + 0x100 * (a + high * 0x4000_0000);
    FieldOf(r, requester * 2, tag, rest, 0x2_0000, 256);
    FieldOf(r, 0, requester, tag + 256 * rest, 2, 0x1_0000);
    hide Field;
    assert w == 2 * (high * 0x4000_0000_0000_0000 + a * 0x1_0000_0000 + data) + 1;
    assert r == 2 * (high * 0x4000_0000_0000_0000 + a * 0x1_0000_0000 + spare * 0x100_0000 + tag * 0x1_0000 +
                     requester);
  }

  function ResponseWord(r: Response): nat
  {
    r.data % 0x1_0000_0000 * 0x1_0000_0000 + r.lowerAddress / 4 % 32 * 0x100_0000 +
    r.tag % 256 * 0x1_0000 + r.requester % 0x1_0000
  }

  predicate ResponseInRange(r: Response)
  {
    r.data < 0x1_0000_0000 && r.lowerAddress < 128 && r.lowerAddress % 4 == 0 && r.tag < 256 && r.requester < 0x1_0000
  }

  // Every field of a response can be read back from its word.
  lemma {:induction false} ResponseRoundTrip(r: Response)
    requires ResponseInRange(r)
    ensures var w := ResponseWord(r);
            Response(Field(w, 1, 0x1_0000), Field(w, 0x1_0000, 256), Field(w, 0x100_0000, 32) * 4,
                     Field(w, 0x1_0000_0000, 0x1_0000_0000)) == r
  {
    var w, low := ResponseWord(r), r.lowerAddress / 4;
    FieldOf(w, 0, r.requester, (r.data * 256 + low) * 256 + r.tag, 1, 0x1_0000);
    FieldOf(w, r.requester, r.tag, r.data * 256 + low, 0x1_0000, 256);
    FieldOf(w, r.tag * 0x1_0000 + r.requester, low, r.data * 8, 0x100_0000, 32);
    FieldOf(w, low * 0x100_0000 + r.tag * 0x1_0000 + r.requester, r.data, 0, 0x1_0000_0000, 0x1_0000_0000);
  }

  // ----- The bridge -----

  datatype State = State(
    complValid: bool, complRequester: nat, complTag: nat, complData: nat, complLowerAddress: nat,
    address: nat, read: bool, write: bool, writeData: nat, busy: bool)

  const IDLE := State(false, 0, 0, 0, 0, 0, false, false, 0, false)

  // What the request source and the Avalon agent drive in a clock
  datatype Input = Input(reqValid: bool, req: nat, waitRequest: bool, readDataValid: bool, readData: nat)

  predicate Ready(s: State)
  {
    !s.busy && !s.write
  }

  // The response on the stream while complValid is high
  function ResponseOf(s: State): Response
  {
    Response(s.complRequester, s.complTag, s.complLowerAddress / 4 % 32 * 4, s.complData)
  }

  function Step(s: State, i: Input): State
  {
    var data := if i.readDataValid then i.readData else s.complData;
    var busy := if i.readDataValid then false else s.busy;
    if i.reqValid && Ready(s) then
      match RequestOf(i.req)
      case Write(address, d) =>
        State(i.readDataValid, s.complRequester, s.complTag, data, s.complLowerAddress, address, s.read, true, d, busy)
      case Read(address, requester, tag) =>
        State(i.readDataValid, requester, tag, data, address % 128, address, true, s.write, s.writeData, true)
    else
      State(i.readDataValid, s.complRequester, s.complTag, data, s.complLowerAddress, s.address,
            s.read && i.waitRequest, s.write && i.waitRequest, s.writeData, busy)
  }

  class Bridge {
    var complValid: bool
    var complRequesterId: nat
    var complTag: nat
    var complData: nat
    var complLowerAddress: nat
    var mAddress: nat
    var mRead: bool
    var mWrite: bool
    var mWritedata: nat
    var mBusy: bool

    function View(): State
      reads this
    {
      State(complValid, complRequesterId, complTag, complData, complLowerAddress, mAddress, mRead, mWrite, mWritedata,
            mBusy)
    }

    constructor ()
      ensures View() == IDLE
    {
      complValid, mRead, mWrite, mBusy := false, false, false, false;
      complRequesterId, complTag, complData, complLowerAddress, mAddress, mWritedata := 0, 0, 0, 0, 0, 0;
    }

    // Registers are read before they are written: the request branch tests the old busy and write.
    method Clock(i: Input)
      modifies this
      ensures View() == Step(old(View()), i)
    {
      hide Field;
      var ready := !mBusy && !mWrite;
      if i.readDataValid {
        complValid := true;
        complData := i.readData;
        mBusy := false;
      } else {
        complValid := false;
      }
      if i.reqValid && ready {
        if i.req % 2 == 1 {
          mWrite := true;
          mAddress := AddressOf(i.req);
          mWritedata := Field(i.req, 2, 0x1_0000_0000);
        } else {
          mBusy := true;
          mRead := true;
          mAddress := AddressOf(i.req);
          complRequesterId := Field(i.req, 2, 0x1_0000);
          complTag := Field(i.req, 0x2_0000, 256);
          complLowerAddress := AddressOf(i.req) % 128;
        }
      } else if !i.waitRequest {
        mWrite := false;
        mRead := false;
      }
    }
  }

  // ----- Runs -----

  // An access on the Avalon bus, once the agent takes it
  datatype Access = WriteAccess(address: nat, data: nat) | ReadAccess(address: nat)

  // The bridge with everything that has crossed its ports
  datatype Run = Run(s: State, taken: seq<Request>, accesses: seq<Access>, returned: seq<nat>, responses: seq<Response>)

  const START := Run(IDLE, [], [], [], [])

  function RunStep(r: Run, i: Input): Run
  {
    Run(Step(r.s, i),
        if i.reqValid && Ready(r.s) then r.taken + [RequestOf(i.req)] else r.taken,
        if i.waitRequest then r.accesses
        else if r.s.write then r.accesses + [WriteAccess(r.s.address, r.s.writeData)]
        else if r.s.read then r.accesses + [ReadAccess(r.s.address)]
        else r.accesses,
        if i.readDataValid then r.returned + [i.readData] else r.returned,
        if r.s.complValid then r.responses + [ResponseOf(r.s)] else r.responses)
  }

  function After(ins: seq<Input>): Run
  {
    if ins == [] then START else RunStep(After(ins[..|ins| - 1]), ins[|ins| - 1])
  }

  // The agent returns data only for a read that it has taken, and once.
  predicate LegalInput(s: State, i: Input)
  {
    i.readDataValid ==> s.busy && (s.read ==> !i.waitRequest)
  }

  predicate Legal(ins: seq<Input>)
  {
    forall n :: 0 <= n < |ins| ==> LegalInput(After(ins[..n]).s, ins[n])
  }

  // ----- What a run owes -----

  function AccessOf(q: Request): Access
  {
    match q
    case Write(a, d) => WriteAccess(a, d)
    case Read(a, _, _) => ReadAccess(a)
  }

  function Accesses(qs: seq<Request>): (r: seq<Access>)
    ensures |r| == |qs|
  {
    seq(|qs|, i requires 0 <= i < |qs| => AccessOf(qs[i]))
  }

  function Reads(qs: seq<Request>): seq<Request>
  {
    if qs == [] then []
    else
      var rest := Reads(qs[..|qs| - 1]);
      if qs[|qs| - 1].Read? then rest + [qs[|qs| - 1]] else rest
  }

  // The answer to a read: its own identity, and the low bits of its own address
  function Answer(q: Request, data: nat): Response
  {
    if q.Read? then Response(q.requester, q.tag, q.address % 128, data) else Response(0, 0, 0, data)
  }

  // The n-th data answers the n-th read.
  function Answers(qs: seq<Request>, data: seq<nat>): (r: seq<Response>)
    requires |data| <= |qs|
    ensures |r| == |data|
  {
    seq(|data|, i requires 0 <= i < |data| => Answer(qs[i], data[i]))
  }

  // The access that the bridge drives and the agent has not taken
  function Pending(s: State): seq<Access>
  {
    if s.write then [WriteAccess(s.address, s.writeData)] else if s.read then [ReadAccess(s.address)] else []
  }

  // The bridge keeps the identity and the low address bits of a read.
  predicate Holds(s: State, q: Request)
  {
    && q.Read? && s.complRequester == q.requester && s.complTag == q.tag
    && s.complLowerAddress / 4 % 32 * 4 == q.address % 128
  }

  predicate Owes(r: Run)
  {
    var rs := Reads(r.taken);
    && (r.s.read ==> r.s.busy) && (r.s.write ==> !r.s.busy)
    && r.accesses + Pending(r.s) == Accesses(r.taken)
    && |rs| == |r.returned| + (if r.s.busy then 1 else 0)
    && r.responses + (if r.s.complValid then [ResponseOf(r.s)] else []) == Answers(rs, r.returned)
    && (r.s.busy ==> Holds(r.s, rs[|rs| - 1]))
  }

  lemma ReadsAppend(qs: seq<Request>, q: Request)
    ensures Reads(qs + [q]) == if q.Read? then Reads(qs) + [q] else Reads(qs)
    ensures Accesses(qs + [q]) == Accesses(qs) + [AccessOf(q)]
  {
    assert (qs + [q])[..|qs + [q]| - 1] == qs;
  }

  lemma AnswersAppend(qs: seq<Request>, data: seq<nat>, d: nat)
    requires |data| < |qs|
    ensures Answers(qs, data + [d]) == Answers(qs, data) + [Answer(qs[|data|], d)]
  {
  }

  lemma AnswersPrefix(qs: seq<Request>, q: Request, data: seq<nat>)
    requires |data| <= |qs|
    ensures Answers(qs + [q], data) == Answers(qs, data)
  {
  }

  // The agent's side of a clock
  lemma AccessesKept(r: Run, i: Input)
    requires Owes(r) && LegalInput(r.s, i)
    ensures var n := RunStep(r, i);
            && (n.s.read ==> n.s.busy) && (n.s.write ==> !n.s.busy)
            && n.accesses + Pending(n.s) == Accesses(n.taken)
  {
    hide RequestOf, Reads, Answers, ResponseOf;
    ReadsAppend(r.taken, RequestOf(i.req));
  }

  // The bridge has a read under way, or none.
  lemma ReadsKept(r: Run, i: Input)
    requires Owes(r) && LegalInput(r.s, i)
    ensures var n := RunStep(r, i);
            |Reads(n.taken)| == |n.returned| + (if n.s.busy then 1 else 0)
  {
    hide RequestOf, Accesses, Answers, ResponseOf, Reads;
    ReadsAppend(r.taken, RequestOf(i.req));
  }

  lemma WordAligned(w: nat)
    ensures RequestOf(w).address % 128 / 4 % 32 * 4 == RequestOf(w).address % 128
  {
    var a := Field(w, 0x2_0000_0000, 0x4000_0000);
    assert AddressOf(w) == 4 * a;
    hide Field;
    LastDigit(a / 32, 4 * (a % 32), 128);
  }

  lemma ResponsesKept(r: Run, i: Input)
    requires Owes(r) && LegalInput(r.s, i)
    ensures var n := RunStep(r, i);
            && |Reads(n.taken)| >= |n.returned|
            && n.responses + (if n.s.complValid then [ResponseOf(n.s)] else []) == Answers(Reads(n.taken), n.returned)
            && (n.s.busy ==> Reads(n.taken) != [] && Holds(n.s, Reads(n.taken)[|Reads(n.taken)| - 1]))
  {
    HoldsKept(r, i);
    ReadsKept(r, i);
    AnswersKept(r, i);
    hide RunStep, Reads, Accesses, Answers, ResponseOf, Holds, Owes, LegalInput;
  }

  lemma HoldsKept(r: Run, i: Input)
    requires Owes(r) && LegalInput(r.s, i)
    ensures var n := RunStep(r, i);
            n.s.busy ==> Reads(n.taken) != [] && Holds(n.s, Reads(n.taken)[|Reads(n.taken)| - 1])
  {
    WordAligned(i.req);
    ReadsAppend(r.taken, RequestOf(i.req));
    hide RequestOf, Reads, Accesses, Answers, Pending, ResponseOf;
  }

  lemma AnswersKept(r: Run, i: Input)
    requires Owes(r) && LegalInput(r.s, i)
    ensures var n := RunStep(r, i);
            && |Reads(n.taken)| >= |n.returned|
            && n.responses + (if n.s.complValid then [ResponseOf(n.s)] else []) == Answers(Reads(n.taken), n.returned)
  {
    var rs, q, n := Reads(r.taken), RequestOf(i.req), RunStep(r, i);
    ReadsAppend(r.taken, q);
    if i.readDataValid {
      AnswersAppend(rs, r.returned, i.readData);
      AnswersPrefix(rs, q, n.returned);
    } else {
      AnswersPrefix(rs, q, r.returned);
    }
    hide RequestOf, Reads, Accesses, Pending, Answers;
  }

  lemma {:induction false} RunOwes(ins: seq<Input>)
    requires Legal(ins)
    ensures Owes(After(ins))
  {
    if ins != [] {
      var before := ins[..|ins| - 1];
      assert forall n :: 0 <= n < |before| ==> before[..n] == ins[..n];
      RunOwes(before);
      var i := ins[|ins| - 1];
      assert LegalInput(After(before).s, i);
      AccessesKept(After(before), i);
      ReadsKept(After(before), i);
      ResponsesKept(After(before), i);
      hide RunStep, LegalInput;
    }
  }

  // In every run, the agent takes the accesses of the requests in order, each once, and the responses are
  // the answers to the reads in order; at most one access and one response are under way.
  lemma {:induction false} EachReadAnsweredOnce(ins: seq<Input>)
    requires Legal(ins)
    ensures var r := After(ins);
            && r.accesses <= Accesses(r.taken) && |r.taken| <= |r.accesses| + 1
            && |r.returned| <= |Reads(r.taken)| <= |r.returned| + 1
            && r.responses <= Answers(Reads(r.taken), r.returned) && |r.returned| <= |r.responses| + 1
  {
    RunOwes(ins);
    hide Accesses, Reads, Answers, ResponseOf, After;
  }

  // When the bridge is ready and shows no response, nothing is owed: every request has been taken by the
  // agent and every read has its response.
  lemma {:induction false} NothingOwedWhenReady(ins: seq<Input>)
    requires Legal(ins) && Ready(After(ins).s) && !After(ins).s.complValid
    ensures var r := After(ins);
            && r.accesses == Accesses(r.taken)
            && |r.returned| == |Reads(r.taken)|
            && r.responses == Answers(Reads(r.taken), r.returned)
  {
    RunOwes(ins);
    hide Accesses, Reads, Answers, ResponseOf, After;
  }

  // ----- One request from its start to its end -----

  function RunOn(r: Run, ins: seq<Input>): Run
    decreases |ins|
  {
    if ins == [] then r else RunStep(RunOn(r, ins[..|ins| - 1]), ins[|ins| - 1])
  }

  // n clocks without a request and without data, in which the agent takes nothing
  function Waits(n: nat): seq<Input>
  {
    seq(n, _ => Input(false, 0, true, false, 0))
  }

  const TAKE := Input(false, 0, false, false, 0)

  lemma {:induction false} WaitsKeep(r: Run, n: nat)
    requires !r.s.complValid
    ensures RunOn(r, Waits(n)) == r
  {
    hide Pending, ResponseOf;
    if n > 0 {
      assert Waits(n)[..n - 1] == Waits(n - 1);
      WaitsKeep(r, n - 1);
    }
  }

  lemma {:induction false} RunOnAdds(r: Run, a: seq<Input>, b: seq<Input>)
    ensures RunOn(r, a + b) == RunOn(RunOn(r, a), b)
    decreases |b|
  {
    hide RunStep;
    if b == [] {
      assert a + b == a;
    } else {
      assert (a + b)[..|a + b| - 1] == a + b[..|b| - 1];
      RunOnAdds(r, a, b[..|b| - 1]);
    }
  }

  lemma {:induction false} RunOnOne(r: Run, i: Input)
    ensures RunOn(r, [i]) == RunStep(r, i)
  {
    hide RunStep;
    assert [i][..0] == [];
  }

  // A clock that takes a request, n clocks of waiting and a last clock
  lemma {:induction false} AskAndWait(r: Run, word: nat, wait: bool, n: nat, last: Input)
    requires !RunStep(r, Input(true, word, wait, false, 0)).s.complValid
    ensures RunOn(r, [Input(true, word, wait, false, 0)] + Waits(n) + [last]) ==
            RunStep(RunStep(r, Input(true, word, wait, false, 0)), last)
  {
    hide RunStep;
    var ask := Input(true, word, wait, false, 0);
    RunOnAdds(r, [ask] + Waits(n), [last]);
    RunOnAdds(r, [ask], Waits(n));
    RunOnOne(r, ask);
    WaitsKeep(RunStep(r, ask), n);
    RunOnOne(RunStep(r, ask), last);
  }

  // A ready bridge takes a write, drives it until the agent takes it, however long that lasts, and is ready again.
  lemma {:induction false} WriteIsServed(r: Run, word: nat, wait: bool, n: nat)
    requires Ready(r.s) && !r.s.read && !r.s.complValid && RequestOf(word).Write?
    ensures var q, t := RequestOf(word), RunOn(r, [Input(true, word, wait, false, 0)] + Waits(n) + [TAKE]);
            && Ready(t.s) && !t.s.read && !t.s.complValid && t.taken == r.taken + [q]
            && t.accesses == r.accesses + [WriteAccess(q.address, q.data)] && t.responses == r.responses
  {
    AskAndWait(r, word, wait, n, TAKE);
    hide RequestOf, RunOn;
  }

  // It takes a read, drives it until the agent takes it, waits for the data, however long both last, gives its
  // response and is ready again.
  lemma {:induction false} ReadIsServed(r: Run, word: nat, wait: bool, n: nat, m: nat, data: nat)
    requires Ready(r.s) && !r.s.read && !r.s.complValid && RequestOf(word).Read?
    ensures var q := RequestOf(word);
            var t := RunOn(r, [Input(true, word, wait, false, 0)] + Waits(n) + [TAKE] +
                              (Waits(m) + [Input(false, 0, true, true, data)] + Waits(1)));
            && Ready(t.s) && !t.s.read && !t.s.complValid && t.taken == r.taken + [q]
            && t.accesses == r.accesses + [ReadAccess(q.address)]
            && t.responses == r.responses + [Response(q.requester, q.tag, q.address % 128, data)]
  {
    var asked := RunStep(r, Input(true, word, wait, false, 0));
    var got := Input(false, 0, true, true, data);
    AskAndWait(r, word, wait, n, TAKE);
    var driven := RunStep(asked, TAKE);
    WaitForData(driven, m, data);
    RunOnAdds(r, [Input(true, word, wait, false, 0)] + Waits(n) + [TAKE], Waits(m) + [got] + Waits(1));
    WordAligned(word);
    hide RequestOf, RunOn;
  }

  lemma {:induction false} WaitForData(r: Run, m: nat, data: nat)
    requires !r.s.complValid
    ensures RunOn(r, Waits(m) + [Input(false, 0, true, true, data)] + Waits(1)) ==
            RunStep(RunStep(r, Input(false, 0, true, true, data)), Input(false, 0, true, false, 0))
  {
    hide RunStep;
    var got := Input(false, 0, true, true, data);
    RunOnAdds(r, Waits(m) + [got], Waits(1));
    RunOnAdds(r, Waits(m), [got]);
    WaitsKeep(r, m);
    RunOnOne(r, got);
    assert Waits(1) == [Input(false, 0, true, false, 0)];
    RunOnOne(RunStep(r, got), Input(false, 0, true, false, 0));
  }
}
