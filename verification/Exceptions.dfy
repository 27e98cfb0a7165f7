/** When an exception leaves a session: at a single step, in a run, and for a
    request. A session runs in a thread of its own, so such an exception ends the
    whole server. */
module Exceptions {
  import opened Octets
  import opened Requests
  import opened DataFile
  import opened SessionModel
  import opened SessionLaws
  import opened BlockSteps

  /** Data arrives for block number 0 before the first wrap of the numbers: the
      stream cannot seek to the position of that block. */
  predicate Unseekable(c: Cfg, s: St, ev: Ev) {
    && s.stat == DataRx && ev.rx.Packet?
    && Relevant(c, s.stat, ev.rx.from, Clip(ev.rx.bytes))
    && |Clip(ev.rx.bytes)| > 4
    && U16(Clip(ev.rx.bytes)[2], Clip(ev.rx.bytes)[3]) == 0
    && s.stage < WIRE && c.Blk() > 0
  }

  lemma StoreCrashes(c: Cfg, s: St, num: nat, payload: seq<byte>)
    requires s.file.req == SrvReq.Write && !s.crashed && num < WIRE
    ensures ReceiveData(c, s, num, payload).0.crashed
            <==> payload != [] && num == 0 && s.stage < WIRE && c.Blk() > 0
  {
    hide WriteAt;
    Unwrapping(s.stage, num, num);
    var at := RxStage(s.stage, num);
    assert at == 0 <==> num == 0 && s.stage < WIRE;
    if at >= 1 {
      Scale(0, at - 1, c.Blk());
    } else {
      assert Position(at, c.Blk()) == -(c.Blk() as int);
    }
  }

  lemma ReceiveCrashes(c: Cfg, s: St, ev: Ev)
    requires c.Valid() && s.Fits() && s.stat == DataRx && s.file.req == SrvReq.Write && !s.crashed
    ensures Receive(c, s, ev.rx).0.crashed <==> Unseekable(c, s, ev)
  {
    hide Overwrite, ReceiveData, ReceiveAck, Clip, U16;
    if ev.rx.Packet? && Relevant(c, s.stat, ev.rx.from, Clip(ev.rx.bytes)) {
      var p := Clip(ev.rx.bytes);
      StoreCrashes(c, s.(buf := Overwrite(s.buf, p)), U16(p[2], p[3]), p[4..]);
    }
  }

  /** The step at which a session is left by an exception: a write session, exactly
      when data arrives for a block it cannot seek to. */
  lemma CrashExactly(c: Cfg, s: St, ev: Ev)
    requires c.Valid() && s.Fits() && Directed(c, s) && !s.crashed
    ensures Step(c, s, ev).crashed <==> Unseekable(c, s, ev)
  {
    hide Step, Receive, Unseekable, SendsLawfully, ErrsLawfully;
    StepLawful(c, s, ev);
    if s.stat == DataRx {
      ReceiveCrashes(c, s, ev);
      CrashIsReceived(c, s, ev);
    } else {
      NotReceiving(c, s, ev);
    }
  }

  lemma CrashIsReceived(c: Cfg, s: St, ev: Ev)
    requires c.Valid() && s.Fits() && s.stat == DataRx && !s.crashed
    ensures Step(c, s, ev).crashed <==> Receive(c, s, ev.rx).0.crashed
  {
    hide Encode, Receive, WindowClosed, Clip;
  }

  lemma NotReceiving(c: Cfg, s: St, ev: Ev)
    requires s.stat != DataRx
    ensures !Unseekable(c, s, ev)
  {
  }

  /** In turn `k` of the run data arrives for a block the session cannot seek to. */
  ghost predicate CrashTurn(c: Cfg, evs: seq<Ev>, k: nat)
    requires c.Valid()
  {
    k < |evs| && Unseekable(c, Exec(c, evs[..k]), evs[k])
  }

  lemma SameTurns(c: Cfg, evs: seq<Ev>, k: nat)
    requires c.Valid() && k < |evs| - 1
    ensures CrashTurn(c, evs, k) <==> CrashTurn(c, evs[..|evs| - 1], k)
  {
    hide Unseekable, ExecFrom;
    assert evs[..|evs| - 1][..k] == evs[..k];
  }

  /** Over a run: the session has been left by an exception exactly if there was such
      a turn. */
  lemma {:induction false} CrashesExactly(c: Cfg, evs: seq<Ev>)
    requires c.Valid()
    ensures Exec(c, evs).crashed <==> exists k: nat :: CrashTurn(c, evs, k)
  {
    hide Step, Unseekable, Directed, CrashTurn;
    if evs == [] {
      NoTurns(c);
    } else {
      var n := |evs| - 1;
      var init := evs[..n];
      CrashesExactly(c, init);
      DirectionInvariant(c, init);
      if Exec(c, init).crashed {
        CrashedStays(c, Exec(c, init), evs[n]);
        var k: nat :| CrashTurn(c, init, k);
        TurnInRun(c, init, k);
        SameTurns(c, evs, k);
      } else {
        CrashExactly(c, Exec(c, init), evs[n]);
        LastTurn(c, evs);
        forall k: nat | k != n ensures !CrashTurn(c, evs, k) {
          if k < n {
            SameTurns(c, evs, k);
          } else {
            TurnsEnd(c, evs, k);
          }
        }
      }
    }
  }

  lemma NoTurns(c: Cfg)
    requires c.Valid()
    ensures forall k: nat :: !CrashTurn(c, [], k)
  {
  }

  lemma TurnInRun(c: Cfg, evs: seq<Ev>, k: nat)
    requires c.Valid() && CrashTurn(c, evs, k)
    ensures k < |evs|
  {
  }

  lemma TurnsEnd(c: Cfg, evs: seq<Ev>, k: nat)
    requires c.Valid() && k >= |evs|
    ensures !CrashTurn(c, evs, k)
  {
  }

  lemma LastTurn(c: Cfg, evs: seq<Ev>)
    requires c.Valid() && evs != []
    ensures CrashTurn(c, evs, |evs| - 1) <==> Unseekable(c, Exec(c, evs[..|evs| - 1]), evs[|evs| - 1])
  {
  }

  /** An exception leaves a session where it waits for data. */
  lemma {:induction false} CrashedWhere(c: Cfg, evs: seq<Ev>)
    requires c.Valid()
    ensures Exec(c, evs).crashed ==> Exec(c, evs).stat == DataRx
  {
    hide Step, Directed, Unseekable;
    if evs != [] {
      var init := evs[..|evs| - 1];
      var s, ev := Exec(c, init), evs[|evs| - 1];
      CrashedWhere(c, init);
      DirectionInvariant(c, init);
      if s.crashed {
        CrashedStays(c, s, ev);
      } else {
        CrashExactly(c, s, ev);
        if s.stat == DataRx {
          StaysInDataRx(c, s, ev);
        } else {
          NotReceiving(c, s, ev);
        }
      }
    }
  }

  lemma StaysInDataRx(c: Cfg, s: St, ev: Ev)
    requires c.Valid() && s.Fits() && s.stat == DataRx
    ensures Step(c, s, ev).crashed ==> Step(c, s, ev).stat == DataRx
  {
    hide Encode, Receive, WindowClosed, Clip;
    ReceiveKeeps(c, s, ev.rx);
  }

  // --------------------------------------------------- which requests can crash

  /** A data packet with number 0 and one byte. */
  function BlockZero(c: Cfg): (r: Ev) {
    FromClient(c, Data(0, [0]), false)
  }

  function ToFirstBlock(c: Cfg): (r: seq<Ev>) {
    if c.opt.WasSetAny() then [IDLE, IDLE] else [IDLE, IDLE, IDLE]
  }

  lemma TwoTurns(c: Cfg)
    requires c.Valid() && c.opt.req == SrvReq.Write && c.opening.Opened?
    ensures var s := Step(c, Step(c, Start(), IDLE), IDLE);
            && !s.crashed && s.file.req == SrvReq.Write
            && if c.opt.WasSetAny() then s.stat == DataRx && s.stage == 1
               else s.stat == AckTx && s.stage == 0 && !s.last
  {
    hide Encode, Overwrite;
  }

  lemma AckThenWaits(c: Cfg, s: St)
    requires c.Valid() && s.Fits() && s.stat == AckTx && s.stage == 0 && !s.last && !s.crashed
    ensures var t := Step(c, s, IDLE);
            t.stat == DataRx && t.stage == 1 && !t.crashed && t.file == s.file
  {
    hide Encode, Overwrite;
  }

  lemma FirstBlockAwaited(c: Cfg)
    requires c.Valid() && c.opt.req == SrvReq.Write && c.opening.Opened?
    ensures var s := Exec(c, ToFirstBlock(c));
            s.stat == DataRx && s.stage == 1 && !s.crashed && s.file.req == SrvReq.Write
  {
    hide Step;
    TwoTurns(c);
    ExecSteps(c);
    if !c.opt.WasSetAny() {
      AckThenWaits(c, Step(c, Step(c, Start(), IDLE), IDLE));
    }
  }

  /** A write session that waits for its first block is left by an exception when
      data arrives with number 0. */
  lemma BlockZeroCrashes(c: Cfg)
    requires c.Valid() && c.opt.req == SrvReq.Write && c.opening.Opened? && c.Blk() > 0
    ensures Exec(c, ToFirstBlock(c) + [BlockZero(c)]).crashed
  {
    hide Step, Clip, Encode;
    var evs := ToFirstBlock(c);
    FirstBlockAwaited(c);
    DirectionInvariant(c, evs);
    assert (evs + [BlockZero(c)])[..|evs|] == evs;
    BlockZeroArrives(c, Exec(c, evs));
    CrashExactly(c, Exec(c, evs), BlockZero(c));
  }

  lemma BlockZeroArrives(c: Cfg, s: St)
    requires c.Blk() > 0 && s.stat == DataRx && s.stage == 1
    ensures Unseekable(c, s, BlockZero(c))
  {
    HeaderReads(3, 0, [0]);
  }

  /** The exact condition on a request: some environment makes its session end in an
      exception if and only if it writes, its file opens and its blocks are not
      empty. */
  lemma CrashPossibleExactly(c: Cfg)
    requires c.Valid()
    ensures (exists evs: seq<Ev> :: Exec(c, evs).crashed) <==>
            c.opt.req == SrvReq.Write && c.opening.Opened? && c.Blk() > 0
  {
    hide ExecFrom, Relevant;
    if c.opt.req == SrvReq.Write && c.opening.Opened? && c.Blk() > 0 {
      BlockZeroCrashes(c);
    } else {
      forall evs: seq<Ev>
        ensures !Exec(c, evs).crashed
      {
        CrashesExactly(c, evs);
        if Exec(c, evs).crashed {
          var k: nat :| CrashTurn(c, evs, k);
          DirectionInvariant(c, evs[..k]);
          if c.opening.Denied? {
            DeniedEnds(c, evs[..k]);
          }
          assert false;
        }
      }
    }
  }
}
