/** How a session ends when its client has gone silent, and how often a session
    retransmits at most. */
module Termination {
  import opened Octets
  import opened Requests
  import opened DataFile
  import opened SessionModel
  import opened SessionLaws
  import opened BlockSteps

  /** A session in the middle of a transfer waits in one state and transmits in
      another. */
  predicate IsWaiting(s: St) {
    s.stat == AckRx || s.stat == DataRx
  }

  predicate IsSending(s: St) {
    s.stat == DataTx || s.stat == AckTx
  }

  // ------------------------------------------------- retransmissions, any run

  /** The number of retransmissions in a run. */
  function Retries(c: Cfg, evs: seq<Ev>): (r: nat)
    requires c.Valid()
  {
    if evs == [] then 0
    else
      var init := evs[..|evs| - 1];
      Retries(c, init) + if Exec(c, init).stat == Retransmit && IsSending(Exec(c, evs)) then 1 else 0
  }

  ghost predicate Counted(c: Cfg, s: St, n: nat) {
    if s.retr <= c.limit then n == s.retr
    else n == c.limit && s.retr == c.limit + 1 && (s.stat == ErrorAndStop || s.stat == Finish)
  }

  lemma StepCounted(c: Cfg, s: St, ev: Ev, n: nat)
    requires c.Valid() && s.Fits() && c.limit < WIRE - 1 && Counted(c, s, n) && !s.crashed
    ensures var t := Step(c, s, ev);
            Counted(c, t, if s.stat == Retransmit && IsSending(t) then n + 1 else n)
  {
    hide Encode, Overwrite, Receive, ConstructData;
    ReceiveKeeps(c, s, ev.rx);
    ConstructKeeps(c, s);
  }

  /** A crashed session has not just been in `Retransmit`. */
  ghost predicate CrashOutside(s: St) {
    s.crashed ==> s.stat != Retransmit
  }

  lemma StepCrashOutside(c: Cfg, s: St, ev: Ev)
    requires c.Valid() && s.Fits() && CrashOutside(s)
    ensures CrashOutside(Step(c, s, ev))
  {
    hide Encode, Overwrite, Receive, ConstructData;
    ReceiveKeeps(c, s, ev.rx);
    ConstructKeeps(c, s);
  }

  lemma {:induction false} CountHolds(c: Cfg, evs: seq<Ev>)
    requires c.Valid() && c.limit < WIRE - 1
    ensures Counted(c, Exec(c, evs), Retries(c, evs)) && CrashOutside(Exec(c, evs))
  {
    hide Step, Counted;
    if evs == [] {
      StartCounted(c);
    } else {
      var init := evs[..|evs| - 1];
      var s, ev := Exec(c, init), evs[|evs| - 1];
      CountHolds(c, init);
      StepCrashOutside(c, s, ev);
      if s.crashed {
        CrashedStays(c, s, ev);
      } else {
        StepCounted(c, s, ev, Retries(c, init));
      }
    }
  }

  lemma StartCounted(c: Cfg)
    ensures Counted(c, Start(), 0) && CrashOutside(Start())
  {
  }

  /** In any run, with whatever packets, at most `limit` retransmissions happen. */
  lemma {:induction false} RetriesBounded(c: Cfg, evs: seq<Ev>)
    requires c.Valid() && c.limit < WIRE - 1
    ensures Retries(c, evs) <= c.limit
  {
    hide ExecFrom;
    CountHolds(c, evs);
  }

  // ----------------------------------------------------------- silent clients

  /** A session that has heard nothing from its client. */
  ghost predicate Unanswered(c: Cfg, s: St)
    requires c.Valid() && c.opening.Opened?
  {
    && s.Fits() && !s.crashed && !s.WasError()
    && (s.stat != NeedInit ==> s.file.req == c.opt.req)
    && (c.opt.req == SrvReq.Read && s.stat != NeedInit ==> s.file.content == c.opening.content)
    && match s.stat
       case NeedInit => s.retr == 0 && s == Start()
       case AckOptions => s.retr == 0 && !s.last
       case AckRx => c.opt.req == SrvReq.Read && s.stage == First(c) && s.retr <= c.limit
       case DataTx => c.opt.req == SrvReq.Read && s.stage == First(c) && s.retr <= c.limit
       case DataRx => c.opt.req == SrvReq.Write && !s.last && s.retr <= c.limit
       case AckTx => c.opt.req == SrvReq.Write && !s.last && s.retr <= c.limit
       case Retransmit =>
         && s.retr <= c.limit
         && (if c.opt.req == SrvReq.Read then s.stage == First(c) else !s.last)
       case ErrorAndStop => c.limit < WIRE - 1
       case Finish => c.limit < WIRE - 1
  }

  /** At its first stage a read session can always send, and then waits. */
  lemma FirstSends(c: Cfg, s: St, ev: Ev)
    requires c.Valid() && c.opening.Opened? && Unanswered(c, s) && s.stat == DataTx
    ensures var t := Step(c, s, ev);
            && t == s.(buf := t.buf, file := t.file, last := t.last, sent := t.sent, stat := AckRx)
            && t.file == s.file.(fail := t.file.fail)
  {
    hide ConstructData;
    ConstructKeeps(c, s);
    FirstReadable(c, s);
    assert WindowClosed(c, s.stage);
  }

  lemma FirstReadable(c: Cfg, s: St)
    requires c.Valid() && s.Fits() && s.stage <= 1
    ensures ConstructData(c, s).1 >= 0
  {
    hide Header, Overwrite, Splice;
    assert Position(0, c.Blk()) == -(c.Blk() as int);
    assert Position(1, c.Blk()) == 0;
  }

  /** How far an unanswered session is from its end: by retries left, then by the
      state within a retry. */
  function Distance(c: Cfg, s: St): (r: nat)
    requires s.retr <= c.limit || s.stat == ErrorAndStop || s.stat == Finish
  {
    match s.stat
    case NeedInit => 3 * (c.limit - s.retr) + 6
    case AckOptions => 3 * (c.limit - s.retr) + 5
    case DataTx => 3 * (c.limit - s.retr) + 4
    case AckTx => 3 * (c.limit - s.retr) + 4
    case AckRx => 3 * (c.limit - s.retr) + 3
    case DataRx => 3 * (c.limit - s.retr) + 3
    case Retransmit => 3 * (c.limit - s.retr) + 2
    case ErrorAndStop => 1
    case Finish => 0
  }

  lemma SilentStep(c: Cfg, s: St, expired: bool)
    requires c.Valid() && c.opening.Opened? && Unanswered(c, s)
    ensures Unanswered(c, Step(c, s, Ev(Nothing, expired)))
  {
    hide Encode, Overwrite, StepDataTx;
    if s.stat == DataTx {
      FirstSends(c, s, Ev(Nothing, expired));
    }
  }

  /** Without an answer, every step of a session that is not over brings it nearer
      to its end, except for waiting while the timer runs. */
  lemma SilentProgress(c: Cfg, s: St, expired: bool)
    requires c.Valid() && c.opening.Opened? && Unanswered(c, s) && s.stat != Finish
    requires c.limit < WIRE - 1
    ensures var t := Step(c, s, Ev(Nothing, expired));
            && Unanswered(c, t)
            && ((t == s && IsWaiting(s) && !expired) || Distance(c, t) < Distance(c, s))
  {
    hide Encode, Overwrite, StepDataTx;
    SilentStep(c, s, expired);
    if s.stat == DataTx {
      FirstSends(c, s, Ev(Nothing, expired));
    }
  }

  /** `n` iterations without a packet, the timer always expired. */
  function Silence(n: nat): (r: seq<Ev>)
    ensures |r| == n
  {
    if n == 0 then [] else Silence(n - 1) + [Ev(Nothing, true)]
  }

  lemma StartUnanswered(c: Cfg)
    requires c.Valid() && c.opening.Opened?
    ensures Unanswered(c, Start())
  {
  }

  lemma SilenceStep(c: Cfg, n: nat)
    requires c.Valid() && n > 0
    ensures Exec(c, Silence(n)) == Step(c, Exec(c, Silence(n - 1)), Ev(Nothing, true))
  {
    hide Step;
    assert Silence(n)[..n - 1] == Silence(n - 1);
  }

  lemma {:induction false} SilenceUnanswered(c: Cfg, n: nat)
    requires c.Valid() && c.opening.Opened?
    ensures Unanswered(c, Exec(c, Silence(n)))
  {
    hide Step, Unanswered;
    if n == 0 {
      StartUnanswered(c);
    } else {
      SilenceUnanswered(c, n - 1);
      SilenceStep(c, n);
      SilentStep(c, Exec(c, Silence(n - 1)), true);
    }
  }

  lemma UnansweredRanked(c: Cfg, s: St)
    requires c.Valid() && c.opening.Opened? && Unanswered(c, s)
    ensures s.retr <= c.limit || s.stat == ErrorAndStop || s.stat == Finish
  {
  }

  lemma NeverDone(c: Cfg, s: St)
    requires c.Valid() && c.opening.Opened? && Unanswered(c, s) && c.limit == WIRE - 1
    ensures s.stat != Finish
  {
  }

  lemma DistanceZero(c: Cfg, s: St)
    requires s.retr <= c.limit || s.stat == ErrorAndStop || s.stat == Finish
    ensures Distance(c, s) == 0 <==> s.stat == Finish
  {
  }

  /** A schedule without a packet; its timer runs and expires as it may. */
  predicate Silent(evs: seq<Ev>) {
    forall i :: 0 <= i < |evs| ==> evs[i].rx == Nothing
  }

  /** The number of turns with an expired timer. */
  function Expiries(evs: seq<Ev>): (r: nat) {
    if evs == [] then 0 else Expiries(evs[..|evs| - 1]) + if evs[|evs| - 1].expired then 1 else 0
  }

  lemma {:induction false} SilentRun(c: Cfg, evs: seq<Ev>)
    requires c.Valid() && c.opening.Opened? && Silent(evs)
    ensures Unanswered(c, Exec(c, evs))
  {
    hide Step, Unanswered;
    if evs == [] {
      StartUnanswered(c);
    } else {
      var init, ev := evs[..|evs| - 1], evs[|evs| - 1];
      SilentRun(c, init);
      assert ev == Ev(Nothing, ev.expired);
      SilentStep(c, Exec(c, init), ev.expired);
    }
  }

  lemma {:induction false} SilenceApproaches(c: Cfg, evs: seq<Ev>)
    requires c.Valid() && c.opening.Opened? && c.limit < WIRE - 1 && Silent(evs)
    ensures var s := Exec(c, evs);
            && (s.retr <= c.limit || s.stat == ErrorAndStop || s.stat == Finish)
            && (s.stat == Finish || Expiries(evs) + Distance(c, s) <= 3 * c.limit + 6)
  {
    hide Step, Unanswered;
    SilentRun(c, evs);
    UnansweredRanked(c, Exec(c, evs));
    if evs != [] {
      var init, ev := evs[..|evs| - 1], evs[|evs| - 1];
      SilenceApproaches(c, init);
      SilentRun(c, init);
      assert ev == Ev(Nothing, ev.expired);
      var s := Exec(c, init);
      if s.stat == Finish {
        FinishAbsorbs(c, s, ev);
      } else {
        SilentProgress(c, s, ev.expired);
      }
    }
  }

  /** Against a silent client a session whose stream opened can end, under whatever
      timer, if and only if the limit is below 65535: the 16-bit counter cannot exceed
      a limit of 65535. Below it, it ends for certain once the timer has expired three
      times for every allowed retry and six times more. */
  lemma SilentEndExactly(c: Cfg)
    requires c.Valid() && c.opening.Opened?
    ensures c.limit < WIRE - 1 <==> exists evs: seq<Ev> :: Silent(evs) && Exec(c, evs).stat == Finish
    ensures c.limit < WIRE - 1 ==>
              forall evs: seq<Ev> :: Silent(evs) && Expiries(evs) >= 3 * c.limit + 6 ==> Exec(c, evs).stat == Finish
  {
    hide ExecFrom, Unanswered, Distance, Silence, Expiries, Silent;
    if c.limit < WIRE - 1 {
      forall evs: seq<Ev> | Silent(evs) && Expiries(evs) >= 3 * c.limit + 6
        ensures Exec(c, evs).stat == Finish
      {
        SilenceApproaches(c, evs);
        DistanceZero(c, Exec(c, evs));
      }
      var n := 3 * c.limit + 6;
      SilenceExpires(n);
      assert Silent(Silence(n)) && Exec(c, Silence(n)).stat == Finish;
    } else {
      forall evs: seq<Ev> | Silent(evs)
        ensures Exec(c, evs).stat != Finish
      {
        SilentRun(c, evs);
        NeverDone(c, Exec(c, evs));
      }
    }
  }

  lemma {:induction false} SilenceExpires(n: nat)
    ensures Silent(Silence(n)) && Expiries(Silence(n)) == n
  {
    if n > 0 {
      SilenceExpires(n - 1);
      assert Silence(n)[..n - 1] == Silence(n - 1);
    }
  }

  // ------------------------------------------------ a limit of 65535

  /** The steps it takes to wait for the first time. */
  function TurnsToWait(c: Cfg): (r: nat) {
    if c.opt.WasSetAny() then 2 else 3
  }

  lemma SilentCycle(c: Cfg, s: St)
    requires c.Valid() && c.opening.Opened? && Unanswered(c, s)
    ensures var t := Step(c, s, Ev(Nothing, true));
            && (s.stat == NeedInit ==> t.stat == AckOptions)
            && (s.stat == AckOptions ==> if c.opt.WasSetAny() then IsWaiting(t) else IsSending(t))
            && (IsSending(s) ==> IsWaiting(t))
            && (IsWaiting(s) ==> t.stat == Retransmit)
            && (s.stat == Retransmit && c.limit == WIRE - 1 ==> IsSending(t))
  {
    hide Encode, Overwrite, StepDataTx;
    if s.stat == DataTx {
      FirstSends(c, s, Ev(Nothing, true));
    }
  }

  lemma SilentAdvance(c: Cfg, n: nat)
    requires c.Valid() && c.opening.Opened? && n > 0
    ensures var s, t := Exec(c, Silence(n - 1)), Exec(c, Silence(n));
            && Unanswered(c, s) && t == Step(c, s, Ev(Nothing, true))
            && Retries(c, Silence(n))
               == Retries(c, Silence(n - 1)) + if s.stat == Retransmit && IsSending(t) then 1 else 0
  {
    hide Step, Unanswered, ExecFrom;
    SilenceUnanswered(c, n - 1);
    SilenceStep(c, n);
    assert Silence(n)[..n - 1] == Silence(n - 1);
  }

  lemma FirstWait(c: Cfg)
    requires c.Valid() && c.opening.Opened?
    ensures IsWaiting(Exec(c, Silence(TurnsToWait(c))))
  {
    hide Step, Unanswered, ExecFrom;
    assert Exec(c, Silence(0)).stat == NeedInit by {
      StartIsInit(c);
    }
    SilentAdvance(c, 1);
    SilentCycle(c, Exec(c, Silence(0)));
    SilentAdvance(c, 2);
    SilentCycle(c, Exec(c, Silence(1)));
    if !c.opt.WasSetAny() {
      SilentAdvance(c, 3);
      SilentCycle(c, Exec(c, Silence(2)));
    }
  }

  lemma StartIsInit(c: Cfg)
    requires c.Valid()
    ensures Exec(c, Silence(0)).stat == NeedInit
  {
  }

  /** With a limit of 65535 a silent client is retransmitted to for ever. */
  lemma {:induction false} EndlessRetries(c: Cfg, n: nat)
    requires c.Valid() && c.opening.Opened? && c.limit == WIRE - 1
    ensures var k := TurnsToWait(c) + 3 * n;
            IsWaiting(Exec(c, Silence(k))) && Retries(c, Silence(k)) >= n
  {
    hide Step, Unanswered, ExecFrom, Silence, Retries;
    if n == 0 {
      FirstWait(c);
    } else {
      EndlessRetries(c, n - 1);
      var k := TurnsToWait(c) + 3 * (n - 1);
      SilentAdvance(c, k + 1);
      SilentCycle(c, Exec(c, Silence(k)));
      SilentAdvance(c, k + 2);
      SilentCycle(c, Exec(c, Silence(k + 1)));
      SilentAdvance(c, k + 3);
      SilentCycle(c, Exec(c, Silence(k + 2)));
    }
  }

  ghost predicate BoundsRetries(c: Cfg, b: nat)
    requires c.Valid()
  {
    forall evs: seq<Ev> :: Retries(c, evs) <= b
  }

  /** The retransmissions of a session whose stream opened are bounded, over all
      runs, if and only if the limit is below 65535; the limit then is a bound. */
  lemma RetriesBoundExactly(c: Cfg)
    requires c.Valid() && c.opening.Opened?
    ensures c.limit < WIRE - 1 <==> exists b: nat :: BoundsRetries(c, b)
    ensures c.limit < WIRE - 1 ==> BoundsRetries(c, c.limit)
  {
    hide Retries, ExecFrom;
    if c.limit < WIRE - 1 {
      forall evs: seq<Ev>
        ensures Retries(c, evs) <= c.limit
      {
        RetriesBounded(c, evs);
      }
      assert BoundsRetries(c, c.limit);
    } else {
      forall b: nat
        ensures !BoundsRetries(c, b)
      {
        EndlessRetries(c, b + 1);
        assert Retries(c, Silence(TurnsToWait(c) + 3 * (b + 1))) > b;
      }
    }
  }

  // ------------------------------------- what a silent client has been sent

  /** A read request without options, for a file that opens. */
  ghost predicate PlainRead(c: Cfg) {
    c.Valid() && c.opt.req == SrvReq.Read && !c.opt.WasSetAny() && c.opening.Opened?
  }

  lemma PlainDefaults(c: Cfg)
    requires PlainRead(c)
    ensures c.Blk() == 512 && c.Window() == 1
  {
  }

  function FirstBlock(c: Cfg): (r: Pkt)
    requires c.opening.Opened?
  {
    DataPkt(c.opening.content, c.Blk(), 1)
  }

  /** So far the session has sent block 1 once, and once more for every retry. */
  ghost predicate Copied(c: Cfg, s: St)
    requires PlainRead(c)
  {
    && Unanswered(c, s)
    && s.sent == Copies(FirstBlock(c), s.retr + if s.stat == AckRx || s.stat == Retransmit then 1 else 0)
    && (s.stat == DataTx || s.stat == AckRx || s.stat == Retransmit ==> c.Blk() > 0 && Loaded(c, s))
    && (s.stat == AckOptions ==> !s.file.fail)
    && (s.stat == ErrorAndStop || s.stat == Finish ==> s.retr == c.limit + 1)
  }

  lemma CopySent(c: Cfg, s: St, expired: bool)
    requires PlainRead(c) && Copied(c, s) && s.stat == DataTx
    ensures Copied(c, Step(c, s, Ev(Nothing, expired)))
  {
    hide Step, Loaded, Block, WindowClosed;
    PlainDefaults(c);
    SilentStep(c, s, expired);
    assert WindowClosed(c, 1) by {
      SingleWindow(c, 1);
    }
    SendsBlock(c, s, Ev(Nothing, expired), 1);
    assert Copies(FirstBlock(c), s.retr) + [FirstBlock(c)] == Copies(FirstBlock(c), s.retr + 1);
  }

  lemma CopyStep(c: Cfg, s: St, expired: bool)
    requires PlainRead(c) && Copied(c, s) && c.limit < WIRE - 1
    ensures Copied(c, Step(c, s, Ev(Nothing, expired)))
  {
    hide Encode, Overwrite, StepDataTx, Block, Copies;
    if s.stat == DataTx {
      CopySent(c, s, expired);
    } else {
      PlainDefaults(c);
      SilentStep(c, s, expired);
    }
  }

  lemma {:induction false} CopiesHold(c: Cfg, evs: seq<Ev>)
    requires PlainRead(c) && c.limit < WIRE - 1 && Silent(evs)
    ensures Copied(c, Exec(c, evs))
  {
    hide Step, Copied;
    if evs == [] {
      StartCopied(c);
    } else {
      var init, ev := evs[..|evs| - 1], evs[|evs| - 1];
      CopiesHold(c, init);
      assert ev == Ev(Nothing, ev.expired);
      CopyStep(c, Exec(c, init), ev.expired);
    }
  }

  lemma StartCopied(c: Cfg)
    requires PlainRead(c)
    ensures Copied(c, Start())
  {
    StartUnanswered(c);
  }

  /** A read without options whose client stays silent sends, by the time it ends and
      under whatever timer, exactly one copy of block 1 more than the limit, all equal,
      and nothing else: no ERROR packet. */
  lemma SilentReadSends(c: Cfg, evs: seq<Ev>)
    requires PlainRead(c) && c.limit < WIRE - 1 && Silent(evs) && Exec(c, evs).stat == Finish
    ensures Exec(c, evs).sent == Copies(FirstBlock(c), c.limit + 1)
  {
    hide ExecFrom, Copies, Unanswered, Loaded, Silent;
    CopiesHold(c, evs);
  }
}
