/** What every run of a session keeps, whatever packets arrive: the direction of
    the transfer, the transition table, the error discipline; and the two facts
    about single blocks the protocol proofs build on. */
module SessionLaws {
  import opened Octets
  import opened Requests
  import opened DataFile
  import opened SessionModel

  // ------------------------------------------------- 16-bit block numbers

  /** The decoded stage is never negative, lies in the epoch of the current stage
      and carries the received number; it is acted upon exactly for numbers up to
      one ahead of the local one; it is the sender's true block number exactly
      when that lies in the same epoch; and the local number then is the received
      one. */
  lemma Unwrapping(stage: nat, num: nat, truth: nat)
    requires num < WIRE && Num(truth) == num
    ensures RxStage(stage, num) >= 0
    ensures RxStage(stage, num) / WIRE == stage / WIRE
    ensures RxStage(stage, num) % WIRE == num
    ensures Accepts(stage, num) <==> num <= Num(stage) + 1
    ensures RxStage(stage, num) == truth <==> truth / WIRE == stage / WIRE
    ensures Accepts(stage, num) ==> Num(RxStage(stage, num)) == num
  {
    assert stage == WIRE * (stage / WIRE) + Num(stage);
    assert truth == WIRE * (truth / WIRE) + num;
    assert RxStage(stage, num) == WIRE * (stage / WIRE) + num;
  }

  /** What a lock-step peer can have sent: the block awaited, which is always
      decoded and accepted, or the one before it, which is decoded and accepted
      exactly when no epoch boundary lies between the two. */
  lemma NeighbourNumbers(stage: nat)
    ensures Accepts(stage, Num(stage)) && RxStage(stage, Num(stage)) == stage
    ensures stage > 0 ==> (Accepts(stage, Num(stage - 1)) <==> Num(stage) != 0)
    ensures stage > 0 && Num(stage) != 0 ==> RxStage(stage, Num(stage - 1)) == stage - 1
    ensures stage > 0 ==> Num(stage - 1) != Num(stage)
  {
  }

  // --------------------------------------------- what the operations leave alone

  /** Receiving touches the buffer, and beyond it only what the result stands for. */
  lemma ReceiveKeeps(c: Cfg, s: St, rx: Rx)
    requires s.Fits()
    ensures var (r, t) := Receive(c, s, rx);
            && r == s.(buf := r.buf, stage := r.stage, code := r.code, msg := r.msg,
                       file := r.file, crashed := r.crashed)
            && r.file == s.file.(content := r.file.content)
            && (s.WasError() || t != Fail || !rx.Packet? || r.crashed != s.crashed ==>
                  r.code == s.code && r.msg == s.msg)
            && (t == Nop ==> r == s.(buf := r.buf))
            && (t == Ok ==> rx.Packet? && r.crashed == s.crashed)
            && (s.stat != DataRx ==> r.file == s.file && r.crashed == s.crashed)
  {
    hide Overwrite, Clip, WriteAt, U16, RxStage;
  }

  /** Preparing data touches the buffer and the stream, and registers an error
      exactly when the block lies beyond the file. */
  lemma ConstructKeeps(c: Cfg, s: St)
    requires c.Valid() && s.Fits()
    ensures var (r, n) := ConstructData(c, s);
            && r == s.(buf := r.buf, file := r.file, code := r.code, msg := r.msg)
            && r.file == s.file.(fail := r.file.fail)
            && (s.WasError() || n >= 0 ==> r.code == s.code && r.msg == s.msg)
            && (n < 0 ==> r.WasError())
  {
    hide Overwrite, Splice, Header;
  }

  // ----------------------------------------------------- what every step keeps

  ghost predicate TakesIn(stat: State) {
    stat == DataRx || stat == AckTx
  }

  ghost predicate GivesOut(stat: State) {
    stat == DataTx || stat == AckRx
  }

  /** Of the packets sent: at most one more, and an ERROR packet only from
      `ErrorAndStop`, with the registered error. */
  ghost predicate SendsLawfully(s: St, t: St) {
    || t.sent == s.sent
    || (&& |t.sent| == |s.sent| + 1 && t.sent[..|s.sent|] == s.sent
        && (t.sent[|s.sent|].Error? ==>
              s.stat == ErrorAndStop && s.WasError() && t.sent[|s.sent|] == Error(s.code, s.msg)))
  }

  /** Of the error: it is kept, or registered by a step that ends the transfer. */
  ghost predicate ErrsLawfully(s: St, t: St) {
    && (s.WasError() ==> t.code == s.code && t.msg == s.msg)
    && (t.WasError() && !s.WasError() ==>
          || ((s.stat == NeedInit || s.stat == DataTx) && t.stat == ErrorAndStop)
          || ((s.stat == DataRx || s.stat == AckRx) && t.stat == Finish))
  }

  /** Of the direction: only the request leads into the states of a direction, and
      the stream stays as it was opened. */
  ghost predicate MovesLawfully(c: Cfg, s: St, t: St) {
    && (TakesIn(t.stat) && !TakesIn(s.stat) ==> c.opt.req == SrvReq.Write)
    && (GivesOut(t.stat) && !GivesOut(s.stat) ==> c.opt.req == SrvReq.Read)
    && (if s.stat == NeedInit then t.file.req == c.opt.req else t.file.req == s.file.req)
    && (s.stat == ErrorAndStop ==> t.stat == Finish)
    && (t.crashed ==> s.stat == DataRx || (s.stat == DataTx && s.file.req != SrvReq.Read))
  }

  ghost predicate Lawful(c: Cfg, s: St, t: St) {
    SendsLawfully(s, t) && ErrsLawfully(s, t) && MovesLawfully(c, s, t)
  }

  lemma ReceivesLawfully(c: Cfg, s: St, ev: Ev)
    requires c.Valid() && s.Fits() && !s.crashed && (s.stat == DataRx || s.stat == AckRx)
    ensures Lawful(c, s, Step(c, s, ev))
  {
    hide Encode, Overwrite, Receive, WindowClosed, Clip;
    ReceiveKeeps(c, s, ev.rx);
  }

  lemma TransmitsLawfully(c: Cfg, s: St, ev: Ev)
    requires c.Valid() && s.Fits() && !s.crashed && s.stat == DataTx
    ensures Lawful(c, s, Step(c, s, ev))
  {
    hide Encode, Overwrite, ConstructData, WindowClosed;
    ConstructKeeps(c, s);
  }

  lemma ComputesLawfully(c: Cfg, s: St, ev: Ev)
    requires c.Valid() && s.Fits() && !s.crashed
    requires s.stat != DataTx && s.stat != DataRx && s.stat != AckRx
    ensures Lawful(c, s, Step(c, s, ev))
  {
    hide Encode, Overwrite, StepDataTx, StepDataRx, StepAckRx;
  }

  lemma StepLawful(c: Cfg, s: St, ev: Ev)
    requires c.Valid() && s.Fits() && !s.crashed
    ensures Lawful(c, s, Step(c, s, ev))
  {
    hide Step, Lawful;
    if s.stat == DataRx || s.stat == AckRx {
      ReceivesLawfully(c, s, ev);
    } else if s.stat == DataTx {
      TransmitsLawfully(c, s, ev);
    } else {
      ComputesLawfully(c, s, ev);
    }
  }

  lemma CrashedStays(c: Cfg, s: St, ev: Ev)
    requires c.Valid() && s.Fits() && s.crashed
    ensures Step(c, s, ev) == s
  {
  }

  // ------------------------------------------------------ the transition table

  /** Every step of a session follows the table, except that a failed receive, in
      `DataRx` and in `AckRx`, asks for `ErrorAndStop`, which the table refuses from
      both, and so ends the session, with nothing sent. */
  lemma StepFollowsTable(c: Cfg, s: St, ev: Ev)
    requires c.Valid() && s.Fits() && !s.crashed
    ensures var t := Step(c, s, ev);
            if (s.stat == DataRx || s.stat == AckRx) && Receive(c, s, ev.rx).1 == Fail && !t.crashed
            then !Allowed(s.stat, ErrorAndStop) && t.stat == Finish && t.sent == s.sent
            else t.stat == s.stat || Allowed(s.stat, t.stat)
  {
    hide Step, Receive;
    if s.stat == DataRx || s.stat == AckRx {
      ReceiveFollowsTable(c, s, ev);
    } else {
      OtherFollowsTable(c, s, ev);
    }
  }

  lemma ReceiveFollowsTable(c: Cfg, s: St, ev: Ev)
    requires c.Valid() && s.Fits() && !s.crashed && (s.stat == DataRx || s.stat == AckRx)
    ensures var t := Step(c, s, ev);
            if Receive(c, s, ev.rx).1 == Fail && !t.crashed
            then !Allowed(s.stat, ErrorAndStop) && t.stat == Finish && t.sent == s.sent
            else t.stat == s.stat || Allowed(s.stat, t.stat)
  {
    hide Encode, Overwrite, Receive, WindowClosed, Clip;
    ReceiveKeeps(c, s, ev.rx);
  }

  lemma OtherFollowsTable(c: Cfg, s: St, ev: Ev)
    requires c.Valid() && s.Fits() && !s.crashed && s.stat != DataRx && s.stat != AckRx
    ensures Step(c, s, ev).stat == s.stat || Allowed(s.stat, Step(c, s, ev).stat)
  {
    hide Encode, Overwrite, StepDataTx, StepDataRx, StepAckRx;
    if s.stat == DataTx {
      SendFollowsTable(c, s);
    }
  }

  lemma SendFollowsTable(c: Cfg, s: St)
    requires c.Valid() && s.Fits() && s.stat == DataTx
    ensures StepDataTx(c, s).stat == s.stat || Allowed(s.stat, StepDataTx(c, s).stat)
  {
    hide Encode, Overwrite, ConstructData, WindowClosed;
    ConstructKeeps(c, s);
  }

  // ------------------------------------------------------------- the direction

  /** A read session stays out of the states that take data in, a write session
      out of those that give data out, and the stream is opened for the request;
      so a read session never ends in an exception. */
  ghost predicate Directed(c: Cfg, s: St) {
    && (c.opt.req == SrvReq.Read ==> (s.stat != DataRx && s.stat != AckTx) && !s.crashed)
    && (c.opt.req == SrvReq.Write ==> (s.stat != DataTx && s.stat != AckRx))
    && (s.stat != NeedInit ==> s.file.req == c.opt.req)
  }

  lemma StepDirected(c: Cfg, s: St, ev: Ev)
    requires c.Valid() && s.Fits() && Directed(c, s)
    ensures Directed(c, Step(c, s, ev))
  {
    hide Step, SendsLawfully, ErrsLawfully;
    if s.crashed {
      CrashedStays(c, s, ev);
    } else {
      StepLawful(c, s, ev);
    }
  }

  lemma StartDirected(c: Cfg)
    ensures Directed(c, Start())
  {
  }

  lemma {:induction false} DirectionInvariant(c: Cfg, evs: seq<Ev>)
    requires c.Valid()
    ensures Directed(c, Exec(c, evs))
  {
    hide Step, Directed;
    if evs == [] {
      StartDirected(c);
    } else {
      DirectionInvariant(c, evs[..|evs| - 1]);
      StepDirected(c, Exec(c, evs[..|evs| - 1]), evs[|evs| - 1]);
    }
  }

  // ------------------------------------------------------- the error discipline

  /** An error is registered only in the states that end a session, and an ERROR
      packet is the last thing sent, in `Finish`, with the registered error. */
  ghost predicate Disciplined(s: St) {
    && (s.WasError() ==> (s.stat == ErrorAndStop || s.stat == Finish))
    && (forall i :: 0 <= i < |s.sent| && s.sent[i].Error? ==>
                      && i == |s.sent| - 1 && s.stat == Finish
                      && s.WasError() && s.sent[i] == Error(s.code, s.msg))
  }

  /** The states that end a session are left only towards `Finish`, and `Finish` not
      at all. */
  lemma StepEnds(c: Cfg, s: St, ev: Ev)
    requires c.Valid() && s.Fits() && !s.crashed
    ensures s.stat == Finish ==> Step(c, s, ev) == s
    ensures s.stat == ErrorAndStop ==> Step(c, s, ev).stat == Finish
  {
    hide Encode, Overwrite;
  }

  lemma StepDisciplined(c: Cfg, s: St, ev: Ev)
    requires c.Valid() && s.Fits() && Disciplined(s)
    ensures Disciplined(Step(c, s, ev))
  {
    hide Step, MovesLawfully;
    if s.crashed {
      CrashedStays(c, s, ev);
    } else {
      StepLawful(c, s, ev);
      StepEnds(c, s, ev);
      var t := Step(c, s, ev);
      forall i | 0 <= i < |t.sent| && t.sent[i].Error?
        ensures i == |t.sent| - 1 && t.stat == Finish && t.WasError() && t.sent[i] == Error(t.code, t.msg)
      {
        if i < |s.sent| {
          assert t.sent[..|s.sent|][i] == s.sent[i];
        }
      }
    }
  }

  lemma StartDisciplined()
    ensures Disciplined(Start())
  {
  }

  /** Over every run: at most one ERROR packet is sent, it is the last packet of
      the session, and it carries the error registered first. */
  lemma {:induction false} ErrorDiscipline(c: Cfg, evs: seq<Ev>)
    requires c.Valid()
    ensures Disciplined(Exec(c, evs))
  {
    hide Step, Disciplined;
    if evs == [] {
      StartDisciplined();
    } else {
      ErrorDiscipline(c, evs[..|evs| - 1]);
      StepDisciplined(c, Exec(c, evs[..|evs| - 1]), evs[|evs| - 1]);
    }
  }

  /** The first error registered is kept. */
  lemma FirstErrorKept(c: Cfg, s: St, ev: Ev)
    requires c.Valid() && s.Fits() && s.WasError()
    ensures Step(c, s, ev).code == s.code && Step(c, s, ev).msg == s.msg
  {
    hide Step, SendsLawfully, MovesLawfully;
    if s.crashed {
      CrashedStays(c, s, ev);
    } else {
      StepLawful(c, s, ev);
    }
  }

  predicate EndsInError(s: St) {
    s.sent != [] && s.sent[|s.sent| - 1].Error?
  }

  lemma SendsError(c: Cfg, s: St, ev: Ev)
    requires c.Valid() && s.Fits() && Disciplined(s)
    requires Step(c, s, ev).sent != s.sent
    requires EndsInError(Step(c, s, ev))
    ensures s.stat == ErrorAndStop && s.WasError() && !s.crashed
  {
    hide Step, ErrsLawfully, MovesLawfully;
    if s.crashed {
      CrashedStays(c, s, ev);
    } else {
      StepLawful(c, s, ev);
    }
  }

  lemma EntersErrorAndStop(c: Cfg, s: St, ev: Ev)
    requires c.Valid() && s.Fits() && Disciplined(s)
    requires Step(c, s, ev).stat == ErrorAndStop && Step(c, s, ev).WasError() && !Step(c, s, ev).crashed
    ensures s.stat == NeedInit || s.stat == DataTx
  {
    hide Step, SendsLawfully;
    if s.crashed {
      CrashedStays(c, s, ev);
    } else {
      StepLawful(c, s, ev);
      StepEnds(c, s, ev);
    }
  }

  /** A step that sends an ERROR packet is a step of `ErrorAndStop`, and that state
      was entered, with the error, from `NeedInit` or from `DataTx`. */
  lemma ErrorOrigin(c: Cfg, evs: seq<Ev>)
    requires c.Valid() && evs != []
    requires Exec(c, evs).sent != Exec(c, evs[..|evs| - 1]).sent
    requires EndsInError(Exec(c, evs))
    ensures |evs| >= 2
    ensures Exec(c, evs[..|evs| - 1]).stat == ErrorAndStop
    ensures var before := Exec(c, evs[..|evs| - 2]).stat;
            before == NeedInit || before == DataTx
  {
    hide Step;
    var evs1 := evs[..|evs| - 1];
    ErrorDiscipline(c, evs1);
    SendsError(c, Exec(c, evs1), evs[|evs| - 1]);
    var evs2 := evs1[..|evs1| - 1];
    assert evs2 == evs[..|evs| - 2];
    ErrorDiscipline(c, evs2);
    EntersErrorAndStop(c, Exec(c, evs2), evs1[|evs1| - 1]);
  }

  /** `finish` is absorbing. */
  lemma FinishAbsorbs(c: Cfg, s: St, ev: Ev)
    requires c.Valid() && s.Fits() && s.stat == Finish
    ensures Step(c, s, ev) == s
  {
  }

  /** A finished session and one an exception has left stay as they are. */
  lemma {:induction false} StaysEnded(c: Cfg, evs: seq<Ev>, i: nat)
    requires c.Valid() && i <= |evs|
    requires var s := Exec(c, evs[..i]); s.stat == Finish || s.crashed
    ensures Exec(c, evs) == Exec(c, evs[..i])
    decreases |evs|
  {
    if i == |evs| {
      assert evs[..i] == evs;
    } else {
      var front := evs[..|evs| - 1];
      assert front[..i] == evs[..i];
      StaysEnded(c, front, i);
    }
  }

  /** A session about to report an error. */
  predicate Reports(s: St) {
    s.stat == ErrorAndStop && s.WasError() && !s.crashed
  }

  lemma ReportsError(c: Cfg, s: St, ev: Ev)
    requires c.Valid() && s.Fits() && Reports(s)
    ensures Step(c, s, ev).stat == Finish && Step(c, s, ev).sent == s.sent + [Error(s.code, s.msg)]
  {
    hide Encode, Overwrite;
  }

  /** It sends one ERROR packet, with that error, and nothing after it. */
  lemma {:induction false} ErrorSent(c: Cfg, evs: seq<Ev>, i: nat)
    requires c.Valid() && i < |evs| && Reports(Exec(c, evs[..i]))
    ensures var s, t := Exec(c, evs[..i]), Exec(c, evs);
            t.sent == s.sent + [Error(s.code, s.msg)] && t.stat == Finish
  {
    hide Step, Reports;
    assert evs[..i + 1] == evs[..i] + [evs[i]];
    ExecSnoc(c, evs[..i], evs[i]);
    ReportsError(c, Exec(c, evs[..i]), evs[i]);
    StaysEnded(c, evs, i + 1);
  }

  /** Over every run: the session has sent an ERROR packet if and only if it was, before
      the end of the run, about to report an error. */
  lemma {:induction false} ErrorSentExactly(c: Cfg, evs: seq<Ev>)
    requires c.Valid()
    ensures (exists p :: p in Exec(c, evs).sent && p.Error?) <==>
            exists i: nat :: i < |evs| && Reports(Exec(c, evs[..i]))
  {
    hide Step, Reports;
    ErrorDiscipline(c, evs);
    var s := Exec(c, evs);
    if exists p :: p in s.sent && p.Error? {
      var p :| p in s.sent && p.Error?;
      assert EndsInError(s);
      var i := WhereReported(c, evs);
      assert Reports(Exec(c, evs[..i]));
    }
    if i: nat :| i < |evs| && Reports(Exec(c, evs[..i])) {
      ErrorSent(c, evs, i);
      var b := Exec(c, evs[..i]);
      assert s.sent[|b.sent|] == Error(b.code, b.msg);
    }
  }

  lemma {:induction false} WhereReported(c: Cfg, evs: seq<Ev>) returns (i: nat)
    requires c.Valid() && EndsInError(Exec(c, evs))
    ensures i < |evs| && Reports(Exec(c, evs[..i]))
  {
    hide Step;
    var front := evs[..|evs| - 1];
    ErrorDiscipline(c, front);
    if Exec(c, evs).sent == Exec(c, front).sent {
      i := WhereReported(c, front);
      assert front[..i] == evs[..i];
    } else {
      i := |evs| - 1;
      SendsError(c, Exec(c, front), evs[|evs| - 1]);
    }
  }

  /** One turn more. */
  lemma ExecSnoc(c: Cfg, evs: seq<Ev>, ev: Ev)
    requires c.Valid()
    ensures Exec(c, evs + [ev]) == Step(c, Exec(c, evs), ev)
  {
    hide Step;
    assert (evs + [ev])[..|evs|] == evs;
  }

  lemma ExecSteps(c: Cfg)
    requires c.Valid()
    ensures Exec(c, [IDLE, IDLE]) == Step(c, Step(c, Start(), IDLE), IDLE)
    ensures Exec(c, [IDLE, IDLE, IDLE]) == Step(c, Exec(c, [IDLE, IDLE]), IDLE)
  {
    hide Step;
    assert [IDLE][..0] == [] && [IDLE, IDLE][..1] == [IDLE] && [IDLE, IDLE, IDLE][..2] == [IDLE, IDLE];
    assert ExecFrom(c, Start(), [IDLE]) == Step(c, Start(), IDLE);
  }

  /** A stream that does not open ends the session at once. */
  lemma {:induction false} DeniedEnds(c: Cfg, evs: seq<Ev>)
    requires c.Valid() && c.opening.Denied?
    ensures var s := Exec(c, evs).stat; s == NeedInit || s == ErrorAndStop || s == Finish
  {
    if evs != [] {
      DeniedEnds(c, evs[..|evs| - 1]);
      DeniedStep(c, Exec(c, evs[..|evs| - 1]), evs[|evs| - 1]);
    }
  }

  lemma DeniedStep(c: Cfg, s: St, ev: Ev)
    requires c.Valid() && c.opening.Denied? && s.Fits()
    requires s.stat == NeedInit || s.stat == ErrorAndStop || s.stat == Finish
    ensures var t := Step(c, s, ev).stat; t == NeedInit || t == ErrorAndStop || t == Finish
  {
    hide Encode, Overwrite;
  }
}
