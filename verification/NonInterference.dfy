/** Packets a session does not wait for: what they leave alone, and the one thing
    they can change. */
module NonInterference {
  import opened Octets
  import opened PacketBuffer
  import opened Requests
  import opened DataFile
  import opened SessionModel
  import opened SessionLaws
  import opened BlockSteps

  /** A packet from another address, shorter than a header, or with an opcode the
      state does not wait for. */
  predicate Ignored(c: Cfg, s: St, ev: Ev) {
    ev.rx.Packet? && !Relevant(c, s.stat, ev.rx.from, Clip(ev.rx.bytes))
  }

  function Hushed(ev: Ev): (r: Ev) {
    Ev(Nothing, ev.expired)
  }

  /** The run in which every ignored packet is replaced by silence. */
  function Quiet(c: Cfg, evs: seq<Ev>): (r: seq<Ev>)
    requires c.Valid()
    ensures |r| == |evs|
  {
    if evs == [] then []
    else
      var init, ev := evs[..|evs| - 1], evs[|evs| - 1];
      Quiet(c, init) + [if Ignored(c, Exec(c, init), ev) then Hushed(ev) else ev]
  }

  /** Two states that differ at most in the bytes of their buffers. */
  ghost predicate SameButBuffer(s: St, t: St) {
    s == t.(buf := s.buf)
  }

  // ----------------------------------------------------------- write sessions

  /** The buffer's old bytes do not matter to what a packet does. */
  lemma ReceiveBlind(c: Cfg, s: St, t: St, rx: Rx)
    requires s.Fits() && t.Fits() && SameButBuffer(s, t)
    ensures SameButBuffer(Receive(c, s, rx).0, Receive(c, t, rx).0)
    ensures Receive(c, s, rx).1 == Receive(c, t, rx).1
  {
    hide Overwrite, Clip, ReceiveData, ReceiveAck, Relevant, U16;
    if rx.Packet? {
      var p := Clip(rx.bytes);
      if Relevant(c, s.stat, rx.from, p) {
        var s1, t1 := s.(buf := Overwrite(s.buf, p)), t.(buf := Overwrite(t.buf, p));
        RelevantState(c, s.stat, rx.from, p);
        DataBlind(c, s1, t1, U16(p[2], p[3]), p[4..]);
        AckBlind(s1, t1, U16(p[2], p[3]));
      }
    }
  }

  lemma RelevantState(c: Cfg, stat: State, from: Addr, p: seq<byte>)
    requires Relevant(c, stat, from, p)
    ensures |p| >= 4
  {
  }

  lemma DataBlind(c: Cfg, s: St, t: St, num: nat, payload: seq<byte>)
    requires SameButBuffer(s, t)
    ensures SameButBuffer(ReceiveData(c, s, num, payload).0, ReceiveData(c, t, num, payload).0)
    ensures ReceiveData(c, s, num, payload).1 == ReceiveData(c, t, num, payload).1
  {
    hide WriteAt, Accepts, RxStage, Position;
  }

  lemma AckBlind(s: St, t: St, num: nat)
    requires SameButBuffer(s, t)
    ensures SameButBuffer(ReceiveAck(s, num).0, ReceiveAck(t, num).0)
    ensures ReceiveAck(s, num).1 == ReceiveAck(t, num).1
  {
    hide Accepts, RxStage;
  }

  lemma IgnoredIsSilence(c: Cfg, s: St, ev: Ev)
    requires s.Fits() && Ignored(c, s, ev)
    ensures SameButBuffer(Receive(c, s, ev.rx).0, Receive(c, s, Nothing).0)
    ensures Receive(c, s, ev.rx).1 == Receive(c, s, Nothing).1
  {
    hide Overwrite, Clip, Relevant;
  }

  lemma ReceivesAlike(c: Cfg, s: St, t: St, rx1: Rx, rx2: Rx)
    requires s.Fits() && t.Fits() && SameButBuffer(s, t)
    requires rx1 == rx2 || (rx1.Packet? && rx2.Nothing? && !Relevant(c, s.stat, rx1.from, Clip(rx1.bytes)))
    ensures SameButBuffer(Receive(c, s, rx1).0, Receive(c, t, rx2).0)
    ensures Receive(c, s, rx1).1 == Receive(c, t, rx2).1
    ensures Receive(c, s, rx1).1 == Ok ==> rx1 == rx2
  {
    hide Receive, Clip, Relevant;
    if rx1 == rx2 {
      ReceiveBlind(c, s, t, rx1);
    } else {
      IgnoredIsSilence(c, s, Ev(rx1, false));
      ReceiveBlind(c, s, t, Nothing);
      ReceiveKeeps(c, s, Nothing);
      SilenceIsNop(c, s);
    }
  }

  lemma SilenceIsNop(c: Cfg, s: St)
    requires s.Fits()
    ensures Receive(c, s, Nothing) == (s, Nop)
  {
  }

  lemma StepAlike(c: Cfg, s: St, t: St, ev1: Ev, ev2: Ev)
    requires c.Valid() && s.Fits() && t.Fits() && SameButBuffer(s, t)
    requires s.stat != DataTx
    requires ev1 == ev2 || (Ignored(c, s, ev1) && ev2 == Hushed(ev1))
    ensures SameButBuffer(Step(c, s, ev1), Step(c, t, ev2))
  {
    hide Step, Ignored;
    if s.stat == DataRx || s.stat == AckRx {
      ReceivingAlike(c, s, t, ev1, ev2);
    } else {
      ComputingAlike(c, s, t, ev1, ev2);
    }
  }

  lemma ReceivingAlike(c: Cfg, s: St, t: St, ev1: Ev, ev2: Ev)
    requires c.Valid() && s.Fits() && t.Fits() && SameButBuffer(s, t)
    requires s.stat == DataRx || s.stat == AckRx
    requires ev1 == ev2 || (Ignored(c, s, ev1) && ev2 == Hushed(ev1))
    ensures SameButBuffer(Step(c, s, ev1), Step(c, t, ev2))
  {
    hide Receive, Encode, Overwrite, Relevant, Switch, Allowed, WindowClosed;
    ReceivesAlike(c, s, t, ev1.rx, ev2.rx);
  }

  lemma ComputingAlike(c: Cfg, s: St, t: St, ev1: Ev, ev2: Ev)
    requires c.Valid() && s.Fits() && t.Fits() && SameButBuffer(s, t)
    requires s.stat != DataTx && s.stat != DataRx && s.stat != AckRx
    ensures SameButBuffer(Step(c, s, ev1), Step(c, t, ev2))
  {
    hide StepInit, StepError, StepOptions, StepDataTx, StepDataRx, StepAckTx, StepAckRx;
    match s.stat
    case NeedInit => InitAlike(c, s, t);
    case ErrorAndStop => ErrorAlike(c, s, t);
    case AckOptions => OptionsAlike(c, s, t);
    case AckTx => AckAlike(s, t);
    case _ =>
  }

  lemma InitAlike(c: Cfg, s: St, t: St)
    requires c.Valid() && s.Fits() && t.Fits() && SameButBuffer(s, t)
    ensures SameButBuffer(StepInit(c, s), StepInit(c, t))
  {
    hide Switch;
  }

  lemma ErrorAlike(c: Cfg, s: St, t: St)
    requires s.Fits() && t.Fits() && SameButBuffer(s, t)
    ensures SameButBuffer(StepError(c, s), StepError(c, t))
  {
    hide Encode, Overwrite, Switch;
  }

  lemma AckAlike(s: St, t: St)
    requires s.Fits() && t.Fits() && SameButBuffer(s, t)
    ensures SameButBuffer(StepAckTx(s), StepAckTx(t))
  {
    hide Overwrite, Switch;
  }

  lemma OptionsAlike(c: Cfg, s: St, t: St)
    requires c.Valid() && s.Fits() && t.Fits() && SameButBuffer(s, t)
    ensures SameButBuffer(StepOptions(c, s), StepOptions(c, t))
  {
    hide Encode, Overwrite, Switch, Allowed;
  }

  /** On a write session, ignored packets have no effect whatever: replacing them by
      silence gives the same states, stages, stored file and packets sent. */
  lemma {:induction false} WritesUndisturbed(c: Cfg, evs: seq<Ev>)
    requires c.Valid() && c.opt.req == SrvReq.Write
    ensures SameButBuffer(Exec(c, evs), Exec(c, Quiet(c, evs)))
  {
    hide Step;
    if evs != [] {
      var init, ev := evs[..|evs| - 1], evs[|evs| - 1];
      WritesUndisturbed(c, init);
      DirectionInvariant(c, init);
      var q := Quiet(c, evs);
      assert q[..|q| - 1] == Quiet(c, init);
      StepAlike(c, Exec(c, init), Exec(c, Quiet(c, init)), ev, q[|q| - 1]);
    }
  }

  // ------------------------------------------------------------ read sessions

  /** Two states of a read session that will send the same: they differ at most in
      their buffers, and where the stream has failed they hold the same rest of the
      file behind the header, at the last block. */
  ghost predicate SendAlike(c: Cfg, s: St, t: St) {
    && s.Fits() && t.Fits() && SameButBuffer(s, t)
    && (s.stat != Finish && s.file.fail ==> AtShortEnd(c, s) && SameTail(c, s, t))
  }

  /** The stream has failed by meeting the end of the file in the current block. */
  ghost predicate AtShortEnd(c: Cfg, s: St) {
    && s.stage >= 1 && s.last
    && 0 < |s.file.content| - Position(s.stage, c.Blk()) < c.Blk()
  }

  ghost predicate SameTail(c: Cfg, s: St, t: St)
    requires s.Fits() && t.Fits()
  {
    var n := |s.file.content| - Position(s.stage, c.Blk());
    0 <= n <= BUF_SIZE - 4 ==> s.buf[4..4 + n] == t.buf[4..4 + n]
  }

  lemma ConstructAlike(c: Cfg, s: St, t: St)
    requires c.Valid() && SendAlike(c, s, t) && s.stage >= 1 && s.stat == DataTx
    ensures var (s1, n1) := ConstructData(c, s);
            var (t1, n2) := ConstructData(c, t);
            && n1 == n2 && SameButBuffer(s1, t1)
            && (n1 >= 0 ==> s1.buf[4..4 + n1] == t1.buf[4..4 + n1])
            && (s1.file.fail ==> 0 < |s.file.content| - Position(s.stage, c.Blk()) < c.Blk())
            && (s1.file.fail ==> n1 == |s.file.content| - Position(s.stage, c.Blk()))
  {
    hide ConstructData, ReadAt, Position;
    PositionAfter(c, s.stage);
    ConstructPayload(c, s);
    ConstructPayload(c, t);
    ConstructErrors(c, s, t);
    var pos := Position(s.stage, c.Blk());
    var n := |s.file.content| - pos;
    if s.file.fail {
      FailedRead(s.file, c.Blk(), pos);
      var a, b := ConstructData(c, s).0, ConstructData(c, t).0;
      TailOf(a.buf, s.buf, n);
      TailOf(b.buf, t.buf, n);
    } else {
      FineRead(s.file, c.Blk(), pos);
    }
  }

  lemma PositionAfter(c: Cfg, stage: nat)
    requires stage >= 1
    ensures Position(stage, c.Blk()) >= 0
  {
    Scale(0, stage - 1, c.Blk());
  }

  lemma FineRead(file: FileSt, blk: nat, pos: int)
    requires !file.fail && pos >= 0
    ensures var r := ReadAt(file, blk, pos);
            && (r.ret >= 0 ==> |r.bytes| == r.ret)
            && (r.file.fail ==> 0 < |file.content| - pos < blk && r.ret == |file.content| - pos)
  {
  }

  lemma ConstructErrors(c: Cfg, s: St, t: St)
    requires c.Valid() && s.Fits() && t.Fits() && SameButBuffer(s, t)
    ensures SameButBuffer(ConstructData(c, s).0, ConstructData(c, t).0)
  {
    hide Header, ReadAt, Position, Overwrite, Splice;
  }

  lemma SendsAlike(c: Cfg, s: St, t: St, ev1: Ev, ev2: Ev)
    requires c.Valid() && SendAlike(c, s, t) && s.stat == DataTx && s.stage >= 1
    requires !s.crashed && !s.WasError() && s.file.req == SrvReq.Read
    ensures SendAlike(c, Step(c, s, ev1), Step(c, t, ev2))
  {
    hide ConstructData, WindowClosed, Position;
    ConstructAlike(c, s, t);
    ConstructKeeps(c, s);
    ConstructKeeps(c, t);
  }

  /** While the stream has failed, a longer packet would overwrite the only copy of
      the last block. */
  ghost predicate Harmless(c: Cfg, s: St, ev: Ev) {
    s.file.fail && (s.stat == AckRx || s.stat == DataRx) && Ignored(c, s, ev) ==> |Clip(ev.rx.bytes)| <= 4
  }

  /** A retransmission at stage 0. */
  predicate AtStageZero(s: St) {
    s.stat == DataTx && s.stage == 0
  }

  /** What arrives lies over the front of the buffer, wanted or not. */
  lemma ReceiveBuffer(c: Cfg, s: St, rx: Rx)
    requires s.Fits()
    ensures Receive(c, s, rx).0.buf == if rx.Packet? then Overwrite(s.buf, Clip(rx.bytes)) else s.buf
  {
    hide WriteAt, Accepts, RxStage, Relevant, Overwrite, Clip;
  }

  lemma OverwriteTail(a: seq<byte>, b: seq<byte>, p: seq<byte>, n: nat)
    requires |a| == |b| && 4 + n <= |a| && |p| <= |a| && a[4..4 + n] == b[4..4 + n]
    ensures Overwrite(a, p)[4..4 + n] == Overwrite(b, p)[4..4 + n]
    ensures |p| <= 4 ==> Overwrite(a, p)[4..4 + n] == a[4..4 + n]
  {
    var x, y := Overwrite(a, p), Overwrite(b, p);
    forall i | 4 <= i < 4 + n ensures x[i] == y[i] && (|p| <= 4 ==> x[i] == a[i]) {
      OverwriteAt(a, p, i);
      OverwriteAt(b, p, i);
      assert a[4..4 + n][i - 4] == b[4..4 + n][i - 4];
    }
  }

  lemma OverwriteAt(a: seq<byte>, p: seq<byte>, i: nat)
    requires |p| <= |a| && i < |a|
    ensures Overwrite(a, p)[i] == if i < |p| then p[i] else a[i]
  {
  }

  lemma ReceiveTail(c: Cfg, s: St, rx: Rx, n: nat)
    requires s.Fits() && 4 + n <= BUF_SIZE
    requires rx.Packet? ==> |Clip(rx.bytes)| <= 4
    ensures Receive(c, s, rx).0.buf[4..4 + n] == s.buf[4..4 + n]
  {
    hide Receive, Overwrite, Clip;
    ReceiveBuffer(c, s, rx);
    if rx.Packet? {
      OverwriteTail(s.buf, s.buf, Clip(rx.bytes), n);
    }
  }

  lemma SameRxTail(c: Cfg, s: St, t: St, rx: Rx, n: nat)
    requires s.Fits() && t.Fits() && 4 + n <= BUF_SIZE && s.buf[4..4 + n] == t.buf[4..4 + n]
    ensures Receive(c, s, rx).0.buf[4..4 + n] == Receive(c, t, rx).0.buf[4..4 + n]
  {
    hide Receive, Overwrite, Clip;
    ReceiveBuffer(c, s, rx);
    ReceiveBuffer(c, t, rx);
    if rx.Packet? {
      OverwriteTail(s.buf, t.buf, Clip(rx.bytes), n);
    }
  }

  lemma WaitsAlike(c: Cfg, s: St, t: St, ev1: Ev, ev2: Ev)
    requires c.Valid() && SendAlike(c, s, t) && s.stat == AckRx && Harmless(c, s, ev1)
    requires ev1 == ev2 || (Ignored(c, s, ev1) && ev2 == Hushed(ev1))
    ensures SendAlike(c, Step(c, s, ev1), Step(c, t, ev2))
  {
    hide Receive, Position, Relevant, Clip;
    ReceivesAlike(c, s, t, ev1.rx, ev2.rx);
    ReceiveKeeps(c, s, ev1.rx);
    if s.file.fail {
      var n := |s.file.content| - Position(s.stage, c.Blk());
      if ev1 == ev2 {
        SameRxTail(c, s, t, ev1.rx, n);
      } else {
        ReceiveTail(c, s, ev1.rx, n);
        ReceiveTail(c, t, ev2.rx, n);
      }
      FailedTail(c, s, t, ev1, ev2, n);
    }
  }

  /** Once the stream has failed the stage only moves when the session ends. */
  lemma FailedTail(c: Cfg, s: St, t: St, ev1: Ev, ev2: Ev, n: int)
    requires c.Valid() && SendAlike(c, s, t) && s.stat == AckRx && s.file.fail
    requires n == |s.file.content| - Position(s.stage, c.Blk())
    requires SameButBuffer(Step(c, s, ev1), Step(c, t, ev2))
    requires 0 <= n && 4 + n <= BUF_SIZE
    requires Receive(c, s, ev1.rx).0.buf[4..4 + n] == Receive(c, t, ev2.rx).0.buf[4..4 + n]
    ensures SendAlike(c, Step(c, s, ev1), Step(c, t, ev2)) || Step(c, s, ev1).stat == Finish
  {
    hide Receive, Position;
    ReceiveKeeps(c, s, ev1.rx);
    ReceiveKeeps(c, t, ev2.rx);
  }

  /** The states that only compute. */
  lemma OthersAlike(c: Cfg, s: St, t: St, ev1: Ev, ev2: Ev)
    requires c.Valid() && SendAlike(c, s, t) && c.opt.req == SrvReq.Read && Directed(c, s)
    requires s.stat != AckRx && s.stat != DataTx
    requires s.stat == NeedInit || s.stat == AckOptions ==> !s.file.fail
    ensures SendAlike(c, Step(c, s, ev1), Step(c, t, ev2))
  {
    hide Encode, Overwrite, AtShortEnd, SameTail, Allowed, StepDataTx, StepDataRx, StepAckRx, StepAckTx;
    if s.stat == Retransmit {
      TailKept(c, s, t, Step(c, s, ev1), Step(c, t, ev2));
    }
  }

  lemma TailKept(c: Cfg, s: St, t: St, s1: St, t1: St)
    requires SendAlike(c, s, t) && s.stat != Finish && s1.Fits() && t1.Fits()
    requires s1.stage == s.stage && s1.file == s.file && s1.last == s.last
    requires s1.buf == s.buf && t1.buf == t.buf
    ensures s.file.fail ==> AtShortEnd(c, s1) && SameTail(c, s1, t1)
  {
    hide Position;
  }

  /** No step of the run retransmits at stage 0, and no packet longer than a header
      is ignored while the stream has failed. */
  ghost predicate Gentle(c: Cfg, evs: seq<Ev>)
    requires c.Valid()
  {
    evs == [] ||
    var init := evs[..|evs| - 1];
    Gentle(c, init) && !AtStageZero(Exec(c, init)) && Harmless(c, Exec(c, init), evs[|evs| - 1])
  }

  /** Before the transfer the stream is as it was opened. */
  ghost predicate FreshStream(s: St) {
    s.stat == NeedInit || s.stat == AckOptions ==> !s.file.fail
  }

  lemma StepFreshStream(c: Cfg, s: St, ev: Ev)
    requires c.Valid() && s.Fits() && FreshStream(s)
    ensures FreshStream(Step(c, s, ev))
  {
    hide Step;
    if s.crashed {
      CrashedStays(c, s, ev);
    } else if s.stat == NeedInit {
      InitFresh(c, s, ev);
    } else {
      NeverBack(c, s, ev);
    }
  }

  lemma InitFresh(c: Cfg, s: St, ev: Ev)
    requires c.Valid() && s.Fits() && !s.crashed && s.stat == NeedInit
    ensures !Step(c, s, ev).file.fail
  {
    hide Encode, Overwrite;
  }

  /** The states before the transfer are not entered again. */
  lemma NeverBack(c: Cfg, s: St, ev: Ev)
    requires c.Valid() && s.Fits() && !s.crashed && s.stat != NeedInit
    ensures Step(c, s, ev).stat != NeedInit && Step(c, s, ev).stat != AckOptions
  {
    hide Step, Receive;
    StepFollowsTable(c, s, ev);
    if s.stat == AckOptions {
      NoIdleOptions(c, s, ev);
    }
  }

  lemma NoIdleOptions(c: Cfg, s: St, ev: Ev)
    requires c.Valid() && s.Fits() && !s.crashed && s.stat == AckOptions
    ensures Step(c, s, ev).stat != AckOptions
  {
    hide Encode, Overwrite;
  }

  lemma {:induction false} FreshStreamHolds(c: Cfg, evs: seq<Ev>)
    requires c.Valid()
    ensures FreshStream(Exec(c, evs))
  {
    hide Step;
    if evs != [] {
      FreshStreamHolds(c, evs[..|evs| - 1]);
      StepFreshStream(c, Exec(c, evs[..|evs| - 1]), evs[|evs| - 1]);
    }
  }

  /** On a read session, ignored packets have no effect on states, stages and
      packets sent, as long as none longer than a header comes while the stream has
      failed, and nothing is retransmitted at stage 0. */
  lemma {:induction false} ReadsUndisturbed(c: Cfg, evs: seq<Ev>)
    requires c.Valid() && c.opt.req == SrvReq.Read && Gentle(c, evs)
    ensures SendAlike(c, Exec(c, evs), Exec(c, Quiet(c, evs)))
  {
    hide Step, SendAlike, Ignored, Harmless;
    if evs == [] {
      StartAlike(c);
    } else {
      var init, ev := evs[..|evs| - 1], evs[|evs| - 1];
      var q := Quiet(c, evs);
      assert q[..|q| - 1] == Quiet(c, init);
      ReadsUndisturbed(c, init);
      DirectionInvariant(c, init);
      ErrorDiscipline(c, init);
      FreshStreamHolds(c, init);
      NextAlike(c, Exec(c, init), Exec(c, Quiet(c, init)), ev, q[|q| - 1]);
    }
  }

  lemma NextAlike(c: Cfg, s: St, t: St, ev1: Ev, ev2: Ev)
    requires c.Valid() && c.opt.req == SrvReq.Read && SendAlike(c, s, t)
    requires Directed(c, s) && Disciplined(s) && FreshStream(s)
    requires !AtStageZero(s) && Harmless(c, s, ev1)
    requires ev1 == ev2 || (Ignored(c, s, ev1) && ev2 == Hushed(ev1))
    ensures SendAlike(c, Step(c, s, ev1), Step(c, t, ev2))
  {
    hide Step, SendAlike, Ignored, Harmless;
    if s.stat == AckRx {
      WaitsAlike(c, s, t, ev1, ev2);
    } else if s.stat == DataTx {
      SendsAlike(c, s, t, ev1, ev2);
    } else {
      OthersAlike(c, s, t, ev1, ev2);
    }
  }

  lemma StartAlike(c: Cfg)
    ensures SendAlike(c, Start(), Start())
  {
  }

  // ------------------------------------------------- when nothing disturbs a read

  /** The read requests no packet from outside can disturb: nothing is ever sent
      again, or nothing at all, or nothing that has to be read, or the stream can
      always be read once more. */
  predicate Impervious(c: Cfg) {
    || c.limit == 0 || c.opening.Denied? || c.Blk() == 0
    || (!c.opt.WasSetAny() && |c.opening.content| % c.Blk() == 0)
  }

  /** A session whose next block comes out of the stream, whatever the buffer holds:
      the stream is fine wherever it is read, and has failed at most where nothing is
      sent any more. */
  ghost predicate Steady(c: Cfg, s: St) {
    && s.Fits() && (c.limit == 0 ==> Untried(s))
    && (s.stat == DataTx ==> !s.file.fail && (c.Blk() == 0 || s.stage >= 1))
    && (s.stat == NeedInit || s.stat == AckOptions ==> !s.file.fail)
    && (s.file.fail ==> c.limit == 0 && (s.stat == AckRx ==> s.last))
    && (c.limit > 0 && (s.stat == AckRx || s.stat == Retransmit) ==> c.Blk() == 0 || s.stage >= 1)
    && (c.opening.Opened? && s.stat != NeedInit ==> s.file.content == c.opening.content)
  }

  /** Where a steady session reads, it gets all it asks for. */
  lemma SteadyRead(c: Cfg, s: St)
    requires c.Valid() && c.opening.Opened? && Impervious(c) && Steady(c, s) && s.stat == DataTx
    ensures var rd := ReadAt(s.file, c.Blk(), Position(s.stage, c.Blk()));
            && (rd.ret >= 0 ==> |rd.bytes| == rd.ret)
            && (rd.file.fail ==> c.limit == 0 && 0 <= rd.ret != c.Blk())
  {
    var blk, n := c.Blk(), |s.file.content|;
    var pos := Position(s.stage, blk);
    if blk == 0 {
      assert pos == 0;
    } else {
      Scale(0, s.stage - 1, blk);
      if n % blk == 0 && pos < n {
        MultipleLeft(n, s.stage - 1, blk);
      }
    }
  }

  /** Behind a block of a file of whole blocks there is a whole block. */
  lemma MultipleLeft(n: nat, k: nat, blk: nat)
    requires blk > 0 && n % blk == 0 && k * blk < n
    ensures n - k * blk >= blk
  {
    var q := n / blk;
    assert n == q * blk;
    if q <= k {
      Scale(q, k, blk);
      assert false;
    }
    Scale(k + 1, q, blk);
    assert (k + 1) * blk == k * blk + blk;
  }

  /** So it sends the same, whatever is in the buffer, and stays steady. */
  lemma SteadySends(c: Cfg, s: St, t: St, ev1: Ev, ev2: Ev)
    requires c.Valid() && c.opening.Opened? && Impervious(c) && Steady(c, s) && s.stat == DataTx
    requires t.Fits() && SameButBuffer(s, t) && !s.crashed && s.file.req == SrvReq.Read
    ensures SameButBuffer(Step(c, s, ev1), Step(c, t, ev2)) && Steady(c, Step(c, s, ev1))
  {
    hide ConstructData, WindowClosed, Position, ReadAt, Impervious;
    SteadyRead(c, s);
    ConstructKeeps(c, s);
    ConstructKeeps(c, t);
    ConstructErrors(c, s, t);
    ConstructPayload(c, s);
    ConstructPayload(c, t);
  }

  lemma SteadyWaits(c: Cfg, s: St, ev: Ev)
    requires c.Valid() && Steady(c, s) && s.stat == AckRx
    ensures Steady(c, Step(c, s, ev))
  {
    hide Receive, Encode, Overwrite;
    ReceiveKeeps(c, s, ev.rx);
    if c.limit == 0 {
      StepUntried(c, s, ev);
    }
  }

  lemma SteadyComputes(c: Cfg, s: St, ev: Ev)
    requires c.Valid() && c.opt.req == SrvReq.Read && Impervious(c) && c.opening.Opened? && Steady(c, s)
    requires s.stat != AckRx && s.stat != DataTx && s.stat != DataRx && s.stat != AckTx
    ensures Steady(c, Step(c, s, ev))
  {
    hide Encode, Overwrite;
  }

  lemma SteadyNext(c: Cfg, s: St, t: St, ev1: Ev, ev2: Ev)
    requires c.Valid() && c.opt.req == SrvReq.Read && c.opening.Opened? && Impervious(c)
    requires Steady(c, s) && t.Fits() && SameButBuffer(s, t) && Directed(c, s)
    requires ev1 == ev2 || (Ignored(c, s, ev1) && ev2 == Hushed(ev1))
    ensures SameButBuffer(Step(c, s, ev1), Step(c, t, ev2)) && Steady(c, Step(c, s, ev1))
  {
    hide Step, Ignored, Impervious, Steady;
    SteadyFits(c, s);
    if s.stat == DataTx {
      SteadySends(c, s, t, ev1, ev2);
    } else {
      StepAlike(c, s, t, ev1, ev2);
      if s.stat == AckRx {
        SteadyWaits(c, s, ev1);
      } else {
        SteadyComputes(c, s, ev1);
      }
    }
  }

  lemma SteadyFits(c: Cfg, s: St)
    requires Steady(c, s)
    ensures s.Fits()
  {
  }

  lemma {:induction false} SteadyRun(c: Cfg, evs: seq<Ev>)
    requires c.Valid() && c.opt.req == SrvReq.Read && c.opening.Opened? && Impervious(c)
    ensures SameButBuffer(Exec(c, evs), Exec(c, Quiet(c, evs))) && Steady(c, Exec(c, evs))
  {
    hide Step, Steady, Impervious, Ignored, SameButBuffer;
    if evs == [] {
      StartSteady(c);
    } else {
      var init, ev := evs[..|evs| - 1], evs[|evs| - 1];
      SteadyRun(c, init);
      DirectionInvariant(c, init);
      var q := Quiet(c, evs);
      assert q[..|q| - 1] == Quiet(c, init);
      SteadyNext(c, Exec(c, init), Exec(c, Quiet(c, init)), ev, q[|q| - 1]);
    }
  }

  lemma StartSteady(c: Cfg)
    ensures Steady(c, Start()) && SameButBuffer(Start(), Start())
  {
  }

  /** A session whose stream did not open never sends data. */
  lemma {:induction false} DeniedRun(c: Cfg, evs: seq<Ev>)
    requires c.Valid() && c.opening.Denied?
    ensures SameButBuffer(Exec(c, evs), Exec(c, Quiet(c, evs)))
  {
    hide Step, Ignored;
    if evs != [] {
      var init, ev := evs[..|evs| - 1], evs[|evs| - 1];
      DeniedRun(c, init);
      DeniedEnds(c, init);
      var q := Quiet(c, evs);
      assert q[..|q| - 1] == Quiet(c, init);
      StepAlike(c, Exec(c, init), Exec(c, Quiet(c, init)), ev, q[|q| - 1]);
    }
  }

  // ------------------------------------------------------ when something does

  /** Three turns: the packet arrives and the timer expires, the session decides to
      send again, and sends. */
  function ThreeTurns(c: Cfg, s: St, ev: Ev): (r: St)
    requires c.Valid() && s.Fits()
    ensures r.Fits()
  {
    Step(c, Step(c, Step(c, s, ev), IDLE), IDLE)
  }

  /** A waiting session that will fill its next packet from the buffer. */
  ghost predicate Exposed(c: Cfg, s: St) {
    && c.Valid() && c.Blk() > 0 && s.Fits() && !s.crashed && !s.WasError()
    && s.stat == AckRx && c.opt.req == SrvReq.Read && s.file.req == SrvReq.Read && s.retr < c.limit
    && (s.stage == 0 || (s.file.fail && 0 < |s.file.content| - Position(s.stage, c.Blk()) < c.Blk()))
  }

  /** What it then sends starts with whatever byte lies behind the header. */
  lemma ExposedSends(c: Cfg, s: St, ev: Ev)
    requires Exposed(c, s) && ev.expired
    requires ev.rx.Nothing? || (ev.rx.Packet? && ev.rx.from != c.client)
    ensures var t := ThreeTurns(c, s, ev);
            var buf := if ev.rx.Packet? then Overwrite(s.buf, Clip(ev.rx.bytes)) else s.buf;
            && |t.sent| == |s.sent| + 1 && t.sent[|s.sent|].Data? && t.sent[|s.sent|].payload != []
            && t.sent[|s.sent|].payload[0] == buf[4]
  {
    hide Step, Overwrite, Position, Clip, Relevant;
    if ev.rx.Packet? {
      NotFromClient(c, s.stat, ev.rx.from, Clip(ev.rx.bytes));
    }
    NothingForUs(c, s, ev.rx, true);
    var s1 := Step(c, s, ev);
    SendsAgain(c, s1);
    var s2 := Step(c, s1, IDLE);
    if s.stage == 0 {
      StageZeroSends(c, s2, IDLE);
    } else {
      ResendsStale(c, s2, |s.file.content| - Position(s.stage, c.Blk()));
    }
  }

  lemma SendsAgain(c: Cfg, s: St)
    requires c.Valid() && s.Fits() && s.stat == Retransmit && !s.crashed
    requires c.opt.req == SrvReq.Read && s.retr < c.limit
    ensures Step(c, s, IDLE) == s.(stat := DataTx, retr := s.retr + 1)
  {
  }

  /** A packet from elsewhere whose fifth byte is the given one. */
  function Odd(c: Cfg, x: byte): (r: Ev) {
    Ev(Packet(c.client + [0], [0, 0, 0, 0, x]), true)
  }

  lemma OddArrives(c: Cfg, buf: seq<byte>, x: byte)
    requires |buf| == BUF_SIZE
    ensures Overwrite(buf, Clip(Odd(c, x).rx.bytes))[4] == x
    ensures Odd(c, x).rx.from != c.client
  {
  }

  /** The byte decides what is sent. */
  lemma ExposedDiffers(c: Cfg, s: St, x: byte)
    requires Exposed(c, s) && x != s.buf[4]
    ensures !SameButBuffer(ThreeTurns(c, s, Odd(c, x)), ThreeTurns(c, s, Hushed(Odd(c, x))))
  {
    hide ThreeTurns, Position;
    OddArrives(c, s.buf, x);
    ExposedSends(c, s, Odd(c, x));
    ExposedSends(c, s, Hushed(Odd(c, x)));
  }

  // ------------------------------------------- the two ways to such a session

  /** A run without ignored packets, and three turns more. */
  lemma {:induction false} QuietThen(c: Cfg, evs: seq<Ev>, ev: Ev)
    requires c.Valid() && Quiet(c, evs) == evs && Exec(c, evs).Fits()
    requires Ignored(c, Exec(c, evs), ev)
    ensures Exec(c, evs + [ev, IDLE, IDLE]) == ThreeTurns(c, Exec(c, evs), ev)
    ensures Exec(c, Quiet(c, evs + [ev, IDLE, IDLE])) == ThreeTurns(c, Exec(c, evs), Hushed(ev))
  {
    hide Step, Ignored, ExecFrom, Quiet;
    QuietSnoc(c, evs, ev);
    QuietSnoc(c, evs + [ev], IDLE);
    QuietSnoc(c, evs + [ev] + [IDLE], IDLE);
    assert evs + [ev] + [IDLE] + [IDLE] == evs + [ev, IDLE, IDLE];
    IdleNotIgnored(c, Exec(c, evs + [ev]));
    IdleNotIgnored(c, Exec(c, evs + [ev] + [IDLE]));
    ExecSnoc(c, evs, ev);
    ExecSnoc(c, evs + [ev], IDLE);
    ExecSnoc(c, evs + [ev] + [IDLE], IDLE);
    var h := Hushed(ev);
    ExecSnoc(c, evs, h);
    ExecSnoc(c, evs + [h], IDLE);
    ExecSnoc(c, evs + [h] + [IDLE], IDLE);
  }

  lemma IdleNotIgnored(c: Cfg, s: St)
    ensures !Ignored(c, s, IDLE)
  {
  }

  lemma {:induction false} QuietSnoc(c: Cfg, evs: seq<Ev>, ev: Ev)
    requires c.Valid()
    ensures Quiet(c, evs + [ev]) == Quiet(c, evs) + [if Ignored(c, Exec(c, evs), ev) then Hushed(ev) else ev]
  {
    hide ExecFrom, Ignored;
    assert (evs + [ev])[..|evs|] == evs;
  }

  /** A read with options, before its first answer. */
  lemma {:induction false} ExposedAtStart(c: Cfg)
    requires c.Valid() && c.opt.req == SrvReq.Read && c.opening.Opened? && c.Blk() > 0
    requires c.opt.WasSetAny() && c.limit > 0
    ensures Exposed(c, Exec(c, [IDLE, IDLE])) && Quiet(c, [IDLE, IDLE]) == [IDLE, IDLE]
  {
    hide Step, ExecFrom, Quiet;
    OptionsSent(c);
    ExecSteps(c);
    QuietSnoc(c, [], IDLE);
    QuietSnoc(c, [IDLE], IDLE);
    QuietNone(c);
    IdleNotIgnored(c, Exec(c, []));
    IdleNotIgnored(c, Exec(c, [IDLE]));
    assert [] + [IDLE] == [IDLE] && [IDLE] + [IDLE] == [IDLE, IDLE];
  }

  lemma {:induction false} QuietNone(c: Cfg)
    requires c.Valid()
    ensures Quiet(c, []) == []
  {
  }

  lemma OptionsSent(c: Cfg)
    requires c.Valid() && c.opt.req == SrvReq.Read && c.opening.Opened?
    ensures var s := Step(c, Step(c, Start(), IDLE), IDLE);
            && !s.crashed && !s.WasError() && s.retr == 0
            && s.file == FileSt(SrvReq.Read, c.opening.content, false)
            && if c.opt.WasSetAny() then s.stat == AckRx && s.stage == 0 else s.stat == DataTx && s.stage == 1
  {
    hide Encode, Overwrite;
  }

  /** The turns in which a read without options gets to send block `n`. */
  function Path(c: Cfg, n: nat): (r: seq<Ev>) {
    if n <= 1 then [IDLE, IDLE] else Path(c, n - 1) + [IDLE] + [FromClient(c, Ack(Num(n - 1)), false)]
  }

  /** About to send block `n` for the first time. */
  ghost predicate FirstTime(c: Cfg, s: St, n: nat)
    requires c.opening.Opened?
  {
    ReadyToSend(c, s, n) && s.retr == 0 && s.file == FileSt(SrvReq.Read, c.opening.content, false)
  }

  lemma PathStep(c: Cfg, s: St, n: nat)
    requires c.opening.Opened? && c.Window() == 1 && FirstTime(c, s, n) && n < FinalBlock(c, c.opening.content)
    ensures var t := Step(c, s, IDLE);
            && t.Fits() && t.stat == AckRx
            && FirstTime(c, Step(c, t, FromClient(c, Ack(Num(n)), false)), n + 1)
  {
    hide Step, Block, WindowClosed, Accepts, RxStage;
    SingleWindow(c, n);
    SendsBlock(c, s, IDLE, n);
    NeighbourNumbers(n);
    TakesAck(c, Step(c, s, IDLE), Num(n), false);
  }

  lemma AckRelevant(c: Cfg, s: St, n: nat)
    requires s.stat == AckRx
    ensures !Ignored(c, s, FromClient(c, Ack(Num(n)), false))
  {
    HeaderReads(4, Num(n), []);
    assert Header(4, Num(n)) + [] == Header(4, Num(n));
  }

  lemma {:induction false} PathRuns(c: Cfg, n: nat)
    requires c.Valid() && c.opt.req == SrvReq.Read && c.opening.Opened? && !c.opt.WasSetAny()
    requires c.Blk() > 0 && c.Window() == 1 && 1 <= n <= FinalBlock(c, c.opening.content)
    ensures FirstTime(c, Exec(c, Path(c, n)), n) && Quiet(c, Path(c, n)) == Path(c, n)
  {
    hide Step, ExecFrom, Quiet, FirstTime, FinalBlock, FromClient;
    if n == 1 {
      PathStart(c);
    } else {
      PathRuns(c, n - 1);
      var evs, ack := Path(c, n - 1), FromClient(c, Ack(Num(n - 1)), false);
      var s := Exec(c, evs);
      PathStep(c, s, n - 1);
      ExecSnoc(c, evs, IDLE);
      ExecSnoc(c, evs + [IDLE], ack);
      QuietSnoc(c, evs, IDLE);
      QuietSnoc(c, evs + [IDLE], ack);
      IdleNotIgnored(c, s);
      AckRelevant(c, Step(c, s, IDLE), n - 1);
    }
  }

  lemma {:induction false} PathStart(c: Cfg)
    requires c.Valid() && c.opt.req == SrvReq.Read && c.opening.Opened? && !c.opt.WasSetAny() && c.Blk() > 0
    ensures FirstTime(c, Exec(c, Path(c, 1)), 1) && Quiet(c, Path(c, 1)) == Path(c, 1)
  {
    hide Step, ExecFrom, Quiet;
    OptionsSent(c);
    ExecSteps(c);
    QuietSnoc(c, [], IDLE);
    QuietSnoc(c, [IDLE], IDLE);
    QuietNone(c);
    IdleNotIgnored(c, Exec(c, []));
    IdleNotIgnored(c, Exec(c, [IDLE]));
    assert [] + [IDLE] == [IDLE] && [IDLE] + [IDLE] == [IDLE, IDLE];
  }

  /** A read without options of a file with a short last block, when that is sent. */
  lemma {:induction false} ExposedAtEnd(c: Cfg)
    requires c.Valid() && c.opt.req == SrvReq.Read && c.opening.Opened? && !c.opt.WasSetAny()
    requires c.limit > 0 && c.Blk() > 0 && |c.opening.content| % c.Blk() != 0
    ensures var evs := Path(c, FinalBlock(c, c.opening.content)) + [IDLE];
            Exposed(c, Exec(c, evs)) && Quiet(c, evs) == evs
  {
    hide Step, ExecFrom, Quiet, Path, Block, Loaded, WindowClosed, Position;
    var n := FinalBlock(c, c.opening.content);
    PathRuns(c, n);
    var evs := Path(c, n);
    ExecSnoc(c, evs, IDLE);
    QuietSnoc(c, evs, IDLE);
    var s := Exec(c, evs);
    IdleNotIgnored(c, s);
    ShortEnd(c.opening.content, c.Blk());
    SendsBlock(c, s, IDLE, n);
    ShortBlockFails(c, s, IDLE, n);
  }

  lemma ShortEnd(f: seq<byte>, blk: nat)
    requires blk > 0 && |f| % blk != 0
    ensures 0 < |f| - Position(LastBlock(|f|, blk), blk) < blk
  {
    var q := |f| / blk;
    assert |f| == q * blk + |f| % blk;
  }

  lemma {:induction false} ExposedRun(c: Cfg, evs: seq<Ev>)
    requires c.Valid() && Exposed(c, Exec(c, evs)) && Quiet(c, evs) == evs
    ensures exists more: seq<Ev> :: !SameButBuffer(Exec(c, more), Exec(c, Quiet(c, more)))
  {
    hide ExecFrom, Quiet, ThreeTurns, SameButBuffer, Position;
    var s := Exec(c, evs);
    var x: byte := if s.buf[4] == 0 then 1 else 0;
    ExposedDiffers(c, s, x);
    OddArrives(c, s.buf, x);
    QuietThen(c, evs, Odd(c, x));
    var more := evs + [Odd(c, x), IDLE, IDLE];
    assert !SameButBuffer(Exec(c, more), Exec(c, Quiet(c, more)));
  }

  /** The exact condition: over all runs, ignored packets have no effect on a read
      session, except on the bytes in its buffer, if and only if the request is
      impervious. */
  lemma {:induction false} ReadsUndisturbedExactly(c: Cfg)
    requires c.Valid() && c.opt.req == SrvReq.Read
    ensures (forall evs: seq<Ev> :: SameButBuffer(Exec(c, evs), Exec(c, Quiet(c, evs)))) <==> Impervious(c)
  {
    hide ExecFrom, Quiet, SameButBuffer, Exposed, Path;
    if c.opening.Denied? {
      forall evs: seq<Ev>
        ensures SameButBuffer(Exec(c, evs), Exec(c, Quiet(c, evs)))
      {
        DeniedRun(c, evs);
      }
    } else if Impervious(c) {
      forall evs: seq<Ev>
        ensures SameButBuffer(Exec(c, evs), Exec(c, Quiet(c, evs)))
      {
        SteadyRun(c, evs);
      }
    } else if c.opt.WasSetAny() {
      ExposedAtStart(c);
      ExposedRun(c, [IDLE, IDLE]);
    } else {
      ExposedAtEnd(c);
      ExposedRun(c, Path(c, FinalBlock(c, c.opening.content)) + [IDLE]);
    }
  }

  // --------------------------------------------------- what a stranger leaves

  /** The stream has failed at the last block, and a strange packet arrives before the
      retransmission: the block sent again then starts with the packet's bytes behind
      a header, as many as there are, and is the one sent before exactly if those are
      the same. */
  lemma StrangerRewritesLast(c: Cfg, s: St, from: Addr, p: seq<byte>)
    requires c.Valid() && c.Blk() > 0 && s.Fits() && !s.crashed && !s.WasError()
    requires s.stat == AckRx && c.opt.req == SrvReq.Read && s.file.req == SrvReq.Read && s.file.fail
    requires Loaded(c, s) && s.stage >= 1 && s.retr < c.limit
    requires |s.file.content| > Position(s.stage, c.Blk())
    requires from != c.client && 4 <= |p| <= BUF_SIZE
    ensures var b := Block(s.file.content, c.Blk(), s.stage);
            var m := Min(|p| - 4, |b|);
            var s1 := Step(c, s, Ev(Packet(from, p), true));
            var s2 := Step(c, s1, Ev(Nothing, false));
            var s3 := Step(c, s2, Ev(Nothing, false));
            && s3.sent == s.sent + [Data(Num(s.stage), p[4..4 + m] + b[m..])]
            && (s3.sent == s.sent + [DataPkt(s.file.content, c.Blk(), s.stage)] <==> p[4..4 + m] == b[..m])
  {
    hide Step, Block;
    var b := Block(s.file.content, c.Blk(), s.stage);
    var m := Min(|p| - 4, |b|);
    BlockSizes(s.file.content, c.Blk(), s.stage);
    StrangerThenRetry(c, s, from, p);
    var s2 := Step(c, Step(c, s, Ev(Packet(from, p), true)), Ev(Nothing, false));
    ResendsStale(c, s2, |b|);
    PartlyOverwritten(s.buf, p, b);
    var sent := p[4..4 + m] + b[m..];
    assert b == b[..m] + b[m..];
    assert sent == b <==> p[4..4 + m] == b[..m] by {
      assert sent[..m] == p[4..4 + m];
    }
    assert (s.sent + [Data(Num(s.stage), sent)])[|s.sent|] == Data(Num(s.stage), sent);
    assert (s.sent + [DataPkt(s.file.content, c.Blk(), s.stage)])[|s.sent|] == Data(Num(s.stage), b);
  }

  lemma PartlyOverwritten(buf: seq<byte>, p: seq<byte>, b: seq<byte>)
    requires 4 + |b| <= |buf| && 4 <= |p| <= |buf| && buf[4..4 + |b|] == b
    ensures var m := Min(|p| - 4, |b|);
            Overwrite(buf, p)[4..4 + |b|] == p[4..4 + m] + b[m..]
  {
    var m := Min(|p| - 4, |b|);
    var r, e := Overwrite(buf, p), p[4..4 + m] + b[m..];
    forall i | 0 <= i < |b| ensures r[4 + i] == e[i] {
      if i >= m {
        assert buf[4..4 + |b|][i] == b[i];
      }
    }
  }

  lemma StrangerThenRetry(c: Cfg, s: St, from: Addr, p: seq<byte>)
    requires c.Valid() && s.Fits() && !s.crashed && s.stat == AckRx && c.opt.req == SrvReq.Read
    requires s.retr < c.limit && from != c.client && |p| <= BUF_SIZE
    ensures Step(c, Step(c, s, Ev(Packet(from, p), true)), Ev(Nothing, false))
            == s.(stat := DataTx, retr := s.retr + 1, buf := Overwrite(s.buf, p))
  {
    hide Overwrite, Encode;
    var s1 := Step(c, s, Ev(Packet(from, p), true));
    assert s1 == s.(stat := Retransmit, buf := Overwrite(s.buf, p));
  }

  lemma ResendsStale(c: Cfg, s: St, n: nat)
    requires c.Valid() && s.Fits() && !s.crashed && !s.WasError()
    requires s.stat == DataTx && s.file.req == SrvReq.Read && s.file.fail && s.stage >= 1
    requires 0 < n == |s.file.content| - Position(s.stage, c.Blk()) < c.Blk()
    ensures Step(c, s, Ev(Nothing, false)).sent == s.sent + [Data(Num(s.stage), s.buf[4..4 + n])]
  {
    hide Header, WindowClosed;
    var h := Overwrite(s.buf, Header(3, Num(s.stage)));
    assert Splice(h, 4, []) == h;
    assert h[4..4 + n] == s.buf[4..4 + n];
  }
}
