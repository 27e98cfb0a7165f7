/** Windows of more than one block (RFC 7440): what a windowed write acknowledges
    when blocks arrive in order, and where a windowed read stands still. */
module Windows {
  import opened Octets
  import opened Requests
  import opened DataFile
  import opened SessionModel
  import opened SessionLaws
  import opened BlockSteps
  import opened Exceptions

  // ---------------------------------------------------------- windowed writes

  ghost predicate Setting(c: Cfg) {
    c.Valid() && c.opt.req == SrvReq.Write && c.opening.Opened? && c.Blk() > 0
  }

  /** The number of blocks that have arrived in a run. */
  function Arrived(evs: seq<Ev>): (r: nat) {
    if evs == [] then 0
    else Arrived(evs[..|evs| - 1]) + if evs[|evs| - 1].rx.Packet? then 1 else 0
  }

  /** A run without timeouts in which the blocks of `f` arrive in order, each when
      the session waits for one. */
  ghost predicate InOrder(c: Cfg, f: seq<byte>, evs: seq<Ev>)
    requires Setting(c)
  {
    evs == [] ||
    var init, ev := evs[..|evs| - 1], evs[|evs| - 1];
    && InOrder(c, f, init)
    && (ev == IDLE ||
        (&& Exec(c, init).stat == DataRx && Arrived(init) < FinalBlock(c, f)
         && ev == FromClient(c, DataPkt(f, c.Blk(), Arrived(init) + 1), false)))
  }

  /** The acknowledgements of the first `m` windows. */
  function WindowAcks(c: Cfg, m: nat): (r: seq<Pkt>)
    ensures |r| == m
  {
    if m == 0 then [] else WindowAcks(c, m - 1) + [Ack(Num(m * c.Window()))]
  }

  /** What a session has sent once `m` windows are acknowledged: the answer to the
      request, then one acknowledgement for each window. */
  function SentFor(c: Cfg, m: nat): (r: seq<Pkt>) {
    [if c.opt.WasSetAny() then Oack(c.opt) else Ack(0)] + WindowAcks(c, m)
  }

  lemma DivNext(k: nat, w: nat)
    requires w >= 1
    ensures (k + 1) % w == 0 ==> (k + 1) / w == k / w + 1 && k + 1 == (k / w + 1) * w
    ensures (k + 1) % w != 0 ==> (k + 1) / w == k / w
  {
    var q, j := k / w, k % w;
    assert k == q * w + j;
    if j + 1 < w {
      ModUnique(k + 1, w, q, j + 1);
      assert (k + 1) / w * w == q * w;
      SameFactor((k + 1) / w, q, w);
    } else {
      assert k + 1 == (q + 1) * w by {
        assert (q + 1) * w == q * w + w;
      }
      ModUnique(k + 1, w, q + 1, 0);
      assert (k + 1) / w * w == (q + 1) * w;
      SameFactor((k + 1) / w, q + 1, w);
    }
  }

  lemma SameFactor(a: int, b: int, w: nat)
    requires w >= 1 && a * w == b * w
    ensures a == b
  {
    var d := a - b;
    assert d * w == 0;
    assert d >= 1 ==> d * w >= w;
    assert d <= -1 ==> d * w <= -1 * w;
  }

  /** The number of full windows among `k` blocks. */
  function Full(c: Cfg, k: nat): (r: nat) {
    k / c.Window()
  }

  /** After `k` blocks: they are stored, and the windows among them that are full
      have been acknowledged, or the last of them is about to be. */
  ghost predicate Progress(c: Cfg, f: seq<byte>, s: St, k: nat)
    requires Setting(c)
  {
    var w, n := c.Window(), FinalBlock(c, f);
    && s.Fits() && !s.crashed && !s.WasError() && k <= n
    && (s.stat != NeedInit ==> s.file == FileSt(SrvReq.Write, Prefix(f, c.Blk(), k), false))
    && match s.stat
       case NeedInit => k == 0 && s == Start()
       case AckOptions => k == 0 && s.sent == [] && !s.last && s.stage == 0
       case DataRx => s.stage == k + 1 && (s.last <==> k == n) && s.sent == SentFor(c, Full(c, k))
                      && (k == n ==> n % w != 0)
       case AckTx =>
         && s.stage == k && k % w == 0 && (s.last <==> k == n)
         && (if k == 0 then s.sent == [] && !c.opt.WasSetAny()
             else Full(c, k) >= 1 && s.sent == SentFor(c, Full(c, k) - 1))
       case Finish => k == n && n % w == 0 && s.sent == SentFor(c, Full(c, k))
       case _ => false
  }

  lemma ArrivalProgress(c: Cfg, f: seq<byte>, s: St, k: nat)
    requires Setting(c) && Progress(c, f, s, k) && s.stat == DataRx && k < FinalBlock(c, f)
    ensures Progress(c, f, Step(c, s, FromClient(c, DataPkt(f, c.Blk(), k + 1), false)), k + 1)
  {
    hide Step, DataPkt, Prefix, Accepts, RxStage, FromClient, SentFor;
    NeighbourNumbers(k + 1);
    StoresBlock(c, s, f, k, k + 1, false);
    DivNext(k, c.Window());
  }

  lemma AckProgress(c: Cfg, f: seq<byte>, s: St, k: nat)
    requires Setting(c) && Progress(c, f, s, k) && s.stat == AckTx
    ensures Progress(c, f, Step(c, s, IDLE), k)
  {
    hide Encode, Overwrite, Prefix;
    var w := c.Window();
    if k == 0 {
      assert 0 / w == 0;
      assert SentFor(c, 0) == [Ack(0)];
    } else {
      var m := k / w;
      assert k == m * w;
      assert SentFor(c, m - 1) + [Ack(Num(m * w))] == SentFor(c, m);
    }
  }

  lemma IdleProgress(c: Cfg, f: seq<byte>, s: St, k: nat)
    requires Setting(c) && Progress(c, f, s, k)
    ensures Progress(c, f, Step(c, s, IDLE), k)
    ensures s.stat == DataRx || s.stat == Finish ==> Step(c, s, IDLE) == s
    ensures s.stat == AckTx ==> Step(c, s, IDLE).stat == (if k == FinalBlock(c, f) then Finish else DataRx)
  {
    hide Encode, Overwrite, StepAckTx;
    if s.stat == AckTx {
      AckProgress(c, f, s, k);
      AckLeaves(s);
    } else if s.stat == AckOptions {
      assert 0 / c.Window() == 0;
      assert SentFor(c, 0) == [if c.opt.WasSetAny() then Oack(c.opt) else Ack(0)];
      assert Prefix(f, c.Blk(), 0) == [];
    }
  }

  lemma AckLeaves(s: St)
    requires s.Fits() && s.stat == AckTx
    ensures StepAckTx(s).stat == if s.last then Finish else DataRx
  {
  }

  lemma {:induction false} ProgressHolds(c: Cfg, f: seq<byte>, evs: seq<Ev>)
    requires Setting(c) && InOrder(c, f, evs)
    ensures Progress(c, f, Exec(c, evs), Arrived(evs))
  {
    hide Step, Progress, DataPkt;
    if evs == [] {
      StartProgress(c, f);
    } else {
      var init, ev := evs[..|evs| - 1], evs[|evs| - 1];
      ProgressHolds(c, f, init);
      if ev == IDLE {
        IdleProgress(c, f, Exec(c, init), Arrived(init));
      } else {
        ArrivalProgress(c, f, Exec(c, init), Arrived(init));
      }
    }
  }

  lemma StartProgress(c: Cfg, f: seq<byte>)
    requires Setting(c)
    ensures Progress(c, f, Start(), 0)
  {
  }

  /** Windowed writes with blocks arriving in order: whatever the idle turns between
      them, the arrived blocks are stored, the acknowledgements are for exactly the
      multiples of the window, in order and one for each full window, and when one is
      about to be sent all blocks up to its number are stored. */
  lemma {:induction false} WindowedWrite(c: Cfg, f: seq<byte>, evs: seq<Ev>)
    requires Setting(c) && InOrder(c, f, evs)
    ensures var s, k := Exec(c, evs), Arrived(evs);
            && (s.stat == DataRx || s.stat == Finish ==>
                  s.sent == SentFor(c, Full(c, k)) && s.file.content == Prefix(f, c.Blk(), k))
            && (s.stat == AckTx ==>
                  s.stage == k && k % c.Window() == 0 && s.file.content == Prefix(f, c.Blk(), s.stage) &&
                  (k > 0 ==> Full(c, k) >= 1 && s.sent == SentFor(c, Full(c, k) - 1)))
            && (s.stat == Finish ==> s.file.content == f)
  {
    hide ExecFrom, SentFor;
    ProgressHolds(c, f, evs);
    WholeFile(f, c.Blk());
  }

  function Idle(n: nat): (r: seq<Ev>)
    ensures |r| == n
  {
    if n == 0 then [] else Idle(n - 1) + [IDLE]
  }

  lemma {:induction false} StillWaiting(c: Cfg, f: seq<byte>, evs: seq<Ev>, n: nat)
    requires Setting(c) && InOrder(c, f, evs) && Exec(c, evs).stat == DataRx
    ensures Exec(c, evs + Idle(n)) == Exec(c, evs)
  {
    hide Step, Progress;
    if n == 0 {
      assert evs + Idle(0) == evs;
    } else {
      StillWaiting(c, f, evs, n - 1);
      assert (evs + Idle(n))[..|evs| + n - 1] == evs + Idle(n - 1);
      ProgressHolds(c, f, evs);
      IdleProgress(c, f, Exec(c, evs), Arrived(evs));
    }
  }

  /** Once all blocks have arrived in order, the session acknowledges the last one
      and finishes if and only if the last block closes a window; otherwise it waits
      on, with the file stored and the last block unacknowledged. (RFC 7440 has the
      last block acknowledged in any case.) */
  lemma {:induction false} LastBlockAckedExactly(c: Cfg, f: seq<byte>, evs: seq<Ev>)
    requires Setting(c) && InOrder(c, f, evs) && Arrived(evs) == FinalBlock(c, f)
    ensures Exec(c, evs).file.content == f
    ensures FinalBlock(c, f) % c.Window() == 0 <==> exists n: nat :: Exec(c, evs + Idle(n)).stat == Finish
  {
    hide Step, ExecFrom, SentFor, Idle;
    var s := Exec(c, evs);
    ProgressHolds(c, f, evs);
    WholeFile(f, c.Blk());
    if s.stat == DataRx {
      forall n: nat
        ensures Exec(c, evs + Idle(n)).stat != Finish
      {
        StillWaiting(c, f, evs, n);
      }
    } else {
      OneTurnMore(c, evs);
      IdleProgress(c, f, s, FinalBlock(c, f));
      assert Exec(c, evs + Idle(1)).stat == Finish;
    }
  }

  lemma OneTurnMore(c: Cfg, evs: seq<Ev>)
    requires c.Valid()
    ensures Exec(c, evs + Idle(1)) == Step(c, Exec(c, evs), IDLE)
  {
    hide Step;
    assert Idle(1) == Idle(0) + [IDLE];
    assert (evs + Idle(1))[..|evs|] == evs;
  }

  /** What a file holds when block `e + 1` is stored without block `e`. */
  function WithHole(f: seq<byte>, blk: nat, e: nat): (r: seq<byte>)
    requires e >= 1
  {
    if Block(f, blk, e + 1) == [] then Prefix(f, blk, e - 1)
    else Prefix(f, blk, e - 1) + Zeros(blk) + Block(f, blk, e + 1)
  }

  lemma HoleIsWritten(f: seq<byte>, blk: nat, e: nat)
    requires blk > 0 && 1 <= e < LastBlock(|f|, blk)
    ensures WriteAt(Prefix(f, blk, e - 1), e * blk, Block(f, blk, e + 1)) == WithHole(f, blk, e)
    ensures WithHole(f, blk, e) == Prefix(f, blk, e + 1)
            <==> Block(f, blk, e + 1) != [] && Block(f, blk, e) == Zeros(blk)
  {
    hide Block, Prefix, LastBlock;
    var a, b, d := Prefix(f, blk, e - 1), Block(f, blk, e), Block(f, blk, e + 1);
    BlockSizes(f, blk, e);
    PrefixLength(f, blk, e - 1);
    PrefixGrows(f, blk, e);
    PrefixGrows(f, blk, e + 1);
    assert e * blk - (e - 1) * blk == blk;
    assert Prefix(f, blk, e + 1) == a + b + d;
    if d != [] && a + Zeros(blk) + d == a + b + d {
      assert (a + Zeros(blk) + d)[|a|..|a| + blk] == Zeros(blk);
      assert (a + b + d)[|a|..|a| + blk] == b;
    }
    if d == [] {
      assert |a + b + d| == |a| + blk;
    }
  }

  lemma PrefixLength(f: seq<byte>, blk: nat, n: nat)
    requires blk > 0 && n < LastBlock(|f|, blk)
    ensures |Prefix(f, blk, n)| == n * blk
  {
    LastBlockBounds(|f|, blk);
    Scale(n, LastBlock(|f|, blk) - 1, blk);
  }

  /** The stage that block `e + 1` is taken for while the session waits for block `e`:
      the right one, or across a wrap the one an epoch earlier. */
  function TakenFor(e: nat): (r: nat) {
    if Num(e) != WIRE - 1 then e + 1 else e + 1 - WIRE
  }

  lemma NextNumber(e: nat)
    ensures Accepts(e, Num(e + 1)) && RxStage(e, Num(e + 1)) == TakenFor(e) && Num(TakenFor(e)) == Num(e + 1)
    ensures Num(e) == WIRE - 1 && e >= WIRE ==> 1 <= TakenFor(e) < e
    ensures TakenFor(e) == 0 <==> e == WIRE - 1
  {
  }

  /** What is stored when block `e + 1` arrives instead of block `e`. */
  function AfterSkip(f: seq<byte>, blk: nat, e: nat): (r: seq<byte>)
    requires e >= 1
  {
    if TakenFor(e) == 0 then Prefix(f, blk, e - 1)
    else
      Scale(0, TakenFor(e) - 1, blk);
      WriteAt(Prefix(f, blk, e - 1), (TakenFor(e) - 1) * blk, Block(f, blk, e + 1))
  }

  lemma SkipStep(c: Cfg, s: St, f: seq<byte>, e: nat)
    requires Setting(c) && e >= 1 && Waiting(c, s, f, e - 1) && s.stage == e && e < FinalBlock(c, f)
    ensures var t := Step(c, s, FromClient(c, DataPkt(f, c.Blk(), e + 1), false));
            && !t.WasError() && t.file.content == AfterSkip(f, c.Blk(), e)
            && (t.crashed <==> TakenFor(e) == 0 && Block(f, c.Blk(), e + 1) != [])
            && (!t.crashed ==>
                  && t.stat == (if WindowClosed(c, TakenFor(e)) then AckTx else DataRx)
                  && t.stage == TakenFor(e) + if WindowClosed(c, TakenFor(e)) then 0 else 1)
  {
    hide Encode, Overwrite, Receive, Block, Prefix, WindowClosed, WriteAt, LastBlock, Accepts, RxStage, TakenFor;
    var r := TakenFor(e);
    BlockSizes(f, c.Blk(), e + 1);
    NextNumber(e);
    DataArrives(c, s, Num(e + 1), Block(f, c.Blk(), e + 1));
    EmptyWrite(Prefix(f, c.Blk(), e - 1), if r == 0 then 0 else PositionOf(r, c.Blk()));
    if r >= 1 {
      Scale(0, r - 1, c.Blk());
    } else {
      assert Position(r, c.Blk()) == -(c.Blk() as int);
    }
  }

  function PositionOf(r: nat, blk: nat): (p: nat)
    requires r >= 1
  {
    Scale(0, r - 1, blk);
    (r - 1) * blk
  }

  /** Where a block lies in the blocks up to a later one. */
  lemma BlockInPrefix(f: seq<byte>, blk: nat, e: nat, r: nat)
    requires blk > 0 && 1 <= r < e <= LastBlock(|f|, blk)
    ensures var content, pos := Prefix(f, blk, e - 1), PositionOf(r, blk);
            pos + blk <= |content| && content[pos..pos + blk] == Block(f, blk, r) && |Block(f, blk, r)| == blk
  {
    hide LastBlock;
    PrefixLength(f, blk, e - 1);
    BlockSizes(f, blk, r);
    Scale(r, e - 1, blk);
    assert r * blk == PositionOf(r, blk) + blk;
  }

  /** Overwriting an earlier block of the file leaves its length as it was, and leaves
      it untouched exactly if the new bytes are the old ones. */
  lemma OldBlockWritten(f: seq<byte>, blk: nat, e: nat, r: nat, data: seq<byte>)
    requires blk > 0 && 1 <= r < e <= LastBlock(|f|, blk) && |data| <= blk
    ensures var content := Prefix(f, blk, e - 1);
            && |WriteAt(content, PositionOf(r, blk), data)| == |content|
            && (WriteAt(content, PositionOf(r, blk), data) == content <==> data <= Block(f, blk, r))
  {
    hide LastBlock, Prefix, Block, WriteAt, PositionOf;
    var content, pos := Prefix(f, blk, e - 1), PositionOf(r, blk);
    BlockInPrefix(f, blk, e, r);
    OverwritesExactly(content, pos, data);
    assert content[pos..pos + |data|] == Block(f, blk, r)[..|data|];
  }

  lemma OverwritesExactly(content: seq<byte>, pos: nat, data: seq<byte>)
    requires pos + |data| <= |content|
    ensures |WriteAt(content, pos, data)| == |content|
    ensures WriteAt(content, pos, data) == content <==> content[pos..pos + |data|] == data
  {
    var r := WriteAt(content, pos, data);
    if data != [] {
      assert r[pos..pos + |data|] == data;
      if content[pos..pos + |data|] == data {
        forall i | 0 <= i < |content| ensures r[i] == content[i] {
          if pos <= i < pos + |data| {
            assert r[i] == r[pos..pos + |data|][i - pos];
            assert content[i] == content[pos..pos + |data|][i - pos];
          }
        }
      }
    }
  }

  /** The three outcomes: a hole, nothing, or an earlier block overwritten. */
  lemma SkipOutcomes(f: seq<byte>, blk: nat, e: nat)
    requires blk > 0 && 1 <= e < LastBlock(|f|, blk)
    ensures var content := AfterSkip(f, blk, e);
            && (Num(e) != WIRE - 1 ==> content == WithHole(f, blk, e))
            && (e == WIRE - 1 ==> content == Prefix(f, blk, e - 1))
            && (content == Prefix(f, blk, e + 1) <==>
                Num(e) != WIRE - 1 && Block(f, blk, e + 1) != [] && Block(f, blk, e) == Zeros(blk))
            && (Num(e) == WIRE - 1 && e >= WIRE ==>
                  (content == Prefix(f, blk, e - 1) <==> Block(f, blk, e + 1) <= Block(f, blk, e + 1 - WIRE)))
  {
    hide Block, Prefix, LastBlock, WithHole, WriteAt;
    HoleIsWritten(f, blk, e);
    NextNumber(e);
    LongerPrefix(f, blk, e);
    if Num(e) == WIRE - 1 && e >= WIRE {
      OldBlockWritten(f, blk, e, TakenFor(e), Block(f, blk, e + 1));
    }
  }

  lemma LongerPrefix(f: seq<byte>, blk: nat, e: nat)
    requires blk > 0 && 1 <= e < LastBlock(|f|, blk)
    ensures |Prefix(f, blk, e - 1)| < |Prefix(f, blk, e + 1)|
  {
    hide LastBlock, Prefix, Block;
    PrefixGrows(f, blk, e);
    PrefixGrows(f, blk, e + 1);
    BlockSizes(f, blk, e);
  }

  lemma AckSent(c: Cfg, s: St)
    requires c.Valid() && s.Fits() && s.stat == AckTx && !s.crashed
    ensures Step(c, s, IDLE).sent == s.sent + [Ack(Num(s.stage))]
  {
    hide Encode, Overwrite;
  }

  lemma {:induction false} AwaitsNext(c: Cfg, f: seq<byte>, evs: seq<Ev>)
    requires Setting(c) && InOrder(c, f, evs) && Exec(c, evs).stat == DataRx
    ensures Waiting(c, Exec(c, evs), f, Arrived(evs)) && Exec(c, evs).stage == Arrived(evs) + 1
  {
    hide ExecFrom, SentFor, Prefix, FinalBlock;
    ProgressHolds(c, f, evs);
  }

  /** The run in which block `e` is lost and the next one arrives. */
  function Skipped(c: Cfg, f: seq<byte>, evs: seq<Ev>, e: nat): (r: seq<Ev>) {
    evs + [FromClient(c, DataPkt(f, c.Blk(), e + 1), false)]
  }

  /** Out of order: after any run in order, block `e` is lost and the next one arrives.
      It is taken for block `e + 1`, block `e` then reads as zeros; or, with a wrap
      between the two, for the block an epoch earlier, which it overwrites; in the first
      epoch that is block 0, and its data ends the session in an exception. Where a
      window then closes, the number of block `e + 1` is acknowledged. The stored bytes
      are right exactly if there is no wrap, block `e` is all zeros and data follows it. */
  lemma {:induction false} SkippedBlock(c: Cfg, f: seq<byte>, evs: seq<Ev>, e: nat)
    requires Setting(c) && InOrder(c, f, evs) && Exec(c, evs).stat == DataRx && e == Arrived(evs) + 1
    requires e < FinalBlock(c, f)
    ensures var late, blk := Skipped(c, f, evs, e), c.Blk();
            var t := Exec(c, late);
            && !t.WasError()
            && (t.crashed <==> e == WIRE - 1 && Block(f, blk, e + 1) != [])
            && (Num(e) != WIRE - 1 ==> t.file.content == WithHole(f, blk, e))
            && (e == WIRE - 1 ==> t.file.content == Prefix(f, blk, e - 1))
            && (Num(e) == WIRE - 1 && e >= WIRE ==>
                  && t.file.content
                     == WriteAt(Prefix(f, blk, e - 1), PositionOf(e + 1 - WIRE, blk), Block(f, blk, e + 1))
                  && (t.file.content == Prefix(f, blk, e - 1) <==> Block(f, blk, e + 1) <= Block(f, blk, e + 1 - WIRE)))
            && (t.file.content == Prefix(f, blk, e + 1) <==>
                Num(e) != WIRE - 1 && Block(f, blk, e + 1) != [] && Block(f, blk, e) == Zeros(blk))
            && (!t.crashed ==>
                  if WindowClosed(c, TakenFor(e)) then Exec(c, late + [IDLE]).sent == t.sent + [Ack(Num(e + 1))]
                  else t.stat == DataRx && t.stage == TakenFor(e) + 1)
  {
    hide Step, ExecFrom, Block, Prefix, WindowClosed, WithHole, FinalBlock, Waiting, InOrder, FromClient, DataPkt;
    hide WriteAt;
    var ev := FromClient(c, DataPkt(f, c.Blk(), e + 1), false);
    AwaitsNext(c, f, evs);
    SkipStep(c, Exec(c, evs), f, e);
    ExecSnoc(c, evs, ev);
    ExecSnoc(c, evs + [ev], IDLE);
    NextNumber(e);
    SkipOutcomes(f, c.Blk(), e) by {
      FinalIs(c, f);
    }
    var t := Exec(c, evs + [ev]);
    if !t.crashed && WindowClosed(c, TakenFor(e)) {
      AckSent(c, t);
    }
  }

  // --------------------------------------- one lost block that ends the server

  /** A run in order that stores `k` blocks and waits for the next. */
  lemma {:induction false} InOrderTo(c: Cfg, f: seq<byte>, k: nat) returns (evs: seq<Ev>)
    requires Setting(c) && k < FinalBlock(c, f)
    ensures InOrder(c, f, evs) && Arrived(evs) == k && Exec(c, evs).stat == DataRx
  {
    hide ExecFrom, InOrder, Arrived, FinalBlock, Step, Progress;
    if k == 0 {
      evs := ToFirstBlock(c);
      FirstBlockAwaited(c);
      IdlesInOrder(c, f);
    } else {
      var init := InOrderTo(c, f, k - 1);
      var ev := FromClient(c, DataPkt(f, c.Blk(), k), false);
      InOrderNext(c, f, init);
      ProgressHolds(c, f, init + [ev]);
      var s := Exec(c, init + [ev]);
      if s.stat == DataRx {
        evs := init + [ev];
      } else {
        evs := init + [ev] + [IDLE];
        InOrderIdle(c, f, init + [ev]);
        ArrivedThen(c, f, init, k);
        IdleProgress(c, f, s, k);
        ExecSnoc(c, init + [ev], IDLE);
      }
    }
  }

  lemma {:induction false} IdlesInOrder(c: Cfg, f: seq<byte>)
    requires Setting(c)
    ensures InOrder(c, f, ToFirstBlock(c)) && Arrived(ToFirstBlock(c)) == 0
  {
    hide ExecFrom, InOrder, Arrived;
    NoneInOrder(c, f);
    assert [] + [IDLE] == [IDLE] && [IDLE] + [IDLE] == [IDLE, IDLE] && [IDLE, IDLE] + [IDLE] == [IDLE, IDLE, IDLE];
    InOrderIdle(c, f, []);
    InOrderIdle(c, f, [IDLE]);
    InOrderIdle(c, f, [IDLE, IDLE]);
  }

  lemma {:induction false} NoneInOrder(c: Cfg, f: seq<byte>)
    requires Setting(c)
    ensures InOrder(c, f, []) && Arrived([]) == 0
  {
  }

  lemma {:induction false} InOrderIdle(c: Cfg, f: seq<byte>, evs: seq<Ev>)
    requires Setting(c) && InOrder(c, f, evs)
    ensures InOrder(c, f, evs + [IDLE]) && Arrived(evs + [IDLE]) == Arrived(evs)
  {
    hide ExecFrom;
    assert (evs + [IDLE])[..|evs|] == evs;
  }

  /** The next block arrives in order; the session then waits for another or is about
      to acknowledge. */
  lemma InOrderNext(c: Cfg, f: seq<byte>, evs: seq<Ev>)
    requires Setting(c) && InOrder(c, f, evs) && Exec(c, evs).stat == DataRx && Arrived(evs) < FinalBlock(c, f)
    ensures var more := evs + [FromClient(c, DataPkt(f, c.Blk(), Arrived(evs) + 1), false)];
            && InOrder(c, f, more) && Arrived(more) == Arrived(evs) + 1
            && (Exec(c, more).stat == DataRx || Exec(c, more).stat == AckTx)
  {
    hide ExecFrom, FinalBlock, Step, DataPkt;
    var k := Arrived(evs);
    var ev := FromClient(c, DataPkt(f, c.Blk(), k + 1), false);
    assert (evs + [ev])[..|evs|] == evs;
    NextArrives(c, f, evs);
  }

  lemma {:induction false} NextArrives(c: Cfg, f: seq<byte>, evs: seq<Ev>)
    requires Setting(c) && InOrder(c, f, evs) && Exec(c, evs).stat == DataRx && Arrived(evs) < FinalBlock(c, f)
    ensures var ev := FromClient(c, DataPkt(f, c.Blk(), Arrived(evs) + 1), false);
            var t := Exec(c, evs + [ev]);
            t.stat == DataRx || t.stat == AckTx
  {
    hide ExecFrom, FinalBlock, Step, DataPkt, InOrder, Prefix, Accepts, RxStage, WindowClosed, FromClient;
    var k := Arrived(evs);
    ExecSnoc(c, evs, FromClient(c, DataPkt(f, c.Blk(), k + 1), false));
    AwaitsNext(c, f, evs);
    NeighbourNumbers(k + 1);
    FinalIs(c, f);
    StoresBlock(c, Exec(c, evs), f, k, k + 1, false);
  }

  lemma {:induction false} ArrivedThen(c: Cfg, f: seq<byte>, evs: seq<Ev>, k: nat)
    requires Setting(c) && k >= 1 && Arrived(evs) == k - 1
    ensures Arrived(evs + [FromClient(c, DataPkt(f, c.Blk(), k), false)]) == k
  {
    hide DataPkt;
    var ev := FromClient(c, DataPkt(f, c.Blk(), k), false);
    assert (evs + [ev])[..|evs|] == evs;
  }

  /** A run in order in which the next block is lost, inside a window, so that a client
      that follows RFC 7440 sends the one behind it; and that one ends the session in
      an exception. */
  ghost predicate LossCrashes(c: Cfg, f: seq<byte>, evs: seq<Ev>)
    requires Setting(c)
  {
    var e := Arrived(evs) + 1;
    && InOrder(c, f, evs) && Exec(c, evs).stat == DataRx && e < FinalBlock(c, f) && !WindowClosed(c, e)
    && Exec(c, Skipped(c, f, evs, e)).crashed
  }

  lemma WrapBlock(f: seq<byte>, blk: nat)
    requires blk > 0
    ensures |f| > (WIRE - 1) * blk <==> WIRE <= LastBlock(|f|, blk) && Block(f, blk, WIRE) != []
  {
    LastBlockBounds(|f|, blk);
    if WIRE <= LastBlock(|f|, blk) {
      BlockSizes(f, blk, WIRE);
    } else {
      Scale(LastBlock(|f|, blk), WIRE - 1, blk);
    }
  }

  /** The exact condition for one lost packet of a conforming client to end a windowed
      write, and with it the server, in an exception: the file has data in its block
      65536, and the window does not divide 65535. */
  lemma LossCrashesExactly(c: Cfg, f: seq<byte>)
    requires Setting(c)
    ensures (exists evs: seq<Ev> :: LossCrashes(c, f, evs)) <==>
            |f| > (WIRE - 1) * c.Blk() && (WIRE - 1) % c.Window() != 0
  {
    hide ExecFrom, InOrder, Arrived, FinalBlock, Block, Prefix, WithHole, WriteAt, DataPkt, FromClient;
    WrapBlock(f, c.Blk());
    FinalIs(c, f);
    if |f| > (WIRE - 1) * c.Blk() && (WIRE - 1) % c.Window() != 0 {
      var evs := InOrderTo(c, f, WIRE - 2);
      SkippedBlock(c, f, evs, WIRE - 1);
      assert LossCrashes(c, f, evs);
    }
    if evs: seq<Ev> :| LossCrashes(c, f, evs) {
      SkippedBlock(c, f, evs, Arrived(evs) + 1);
    }
  }

  // ----------------------------------------------------------- windowed reads

  /** A session about to send a full block that does not close a window stays where
      it is: each turn sends the same packet again, and it never listens. */
  lemma {:induction false} SendsForever(c: Cfg, s: St, n: nat, evs: seq<Ev>)
    requires ReadyToSend(c, s, n) && !WindowClosed(c, n) && n < FinalBlock(c, s.file.content)
    ensures var t := ExecFrom(c, s, evs);
            && ReadyToSend(c, t, n) && t.file.content == s.file.content
            && t.sent == s.sent + Copies(DataPkt(s.file.content, c.Blk(), n), |evs|)
  {
    hide Step, Loaded, WindowClosed, DataPkt;
    if evs == [] {
      assert Copies(DataPkt(s.file.content, c.Blk(), n), 0) == [];
    } else {
      var init := evs[..|evs| - 1];
      SendsForever(c, s, n, init);
      SendsBlock(c, ExecFrom(c, s, init), evs[|evs| - 1], n);
      var p := DataPkt(s.file.content, c.Blk(), n);
      assert Copies(p, |evs|) == Copies(p, |init|) + [p];
    }
  }

  lemma {:induction false} ExecOne(c: Cfg, s: St, ev: Ev)
    requires c.Valid() && s.Fits()
    ensures ExecFrom(c, s, [ev]) == Step(c, s, ev)
  {
    hide Step;
    assert [ev][..0] == [];
  }

  /** The exact condition for a read to move on from block `n`: the block closes a
      window, or is the last. Otherwise no packet and no timer ever moves it. */
  lemma {:induction false} MovesOnExactly(c: Cfg, s: St, n: nat)
    requires ReadyToSend(c, s, n)
    ensures WindowClosed(c, n) || n == FinalBlock(c, s.file.content) <==>
            exists evs: seq<Ev> :: ExecFrom(c, s, evs).stat != DataTx
  {
    hide Step, Loaded, WindowClosed, ExecFrom;
    if WindowClosed(c, n) || n == FinalBlock(c, s.file.content) {
      SendsBlock(c, s, IDLE, n);
      ExecOne(c, s, IDLE);
      assert ExecFrom(c, s, [IDLE]).stat != DataTx;
    } else {
      forall evs: seq<Ev>
        ensures ExecFrom(c, s, evs).stat == DataTx
      {
        SendsForever(c, s, n, evs);
      }
    }
  }

  /** A session about to send a full block that does not close a window, whatever the
      state of its stream. */
  ghost predicate Stuck(c: Cfg, s: St, n: nat) {
    && c.Valid() && c.Blk() > 0 && s.Fits() && s.stat == DataTx && s.stage == n
    && !s.crashed && !s.WasError() && s.file.req == SrvReq.Read
    && 1 <= n < FinalBlock(c, s.file.content) && !WindowClosed(c, n)
  }

  lemma StuckStep(c: Cfg, s: St, n: nat, ev: Ev)
    requires Stuck(c, s, n)
    ensures var t := Step(c, s, ev);
            Stuck(c, t, n) && t.file.content == s.file.content && |t.sent| == |s.sent| + 1
  {
    hide Header, WindowClosed, Overwrite, Splice, LastBlock;
    BlockSizes(s.file.content, c.Blk(), n);
    Scale(0, n - 1, c.Blk());
    assert n * c.Blk() == (n - 1) * c.Blk() + c.Blk();
    ConstructKeeps(c, s);
  }

  /** It stays there: each turn sends another packet, and it never listens. */
  lemma {:induction false} StuckForever(c: Cfg, s: St, n: nat, evs: seq<Ev>)
    requires Stuck(c, s, n)
    ensures var t := ExecFrom(c, s, evs);
            Stuck(c, t, n) && t.file.content == s.file.content && |t.sent| == |s.sent| + |evs|
  {
    hide Step, Stuck;
    StuckFits(c, s, n);
    if evs != [] {
      StuckForever(c, s, n, evs[..|evs| - 1]);
      StuckStep(c, ExecFrom(c, s, evs[..|evs| - 1]), n, evs[|evs| - 1]);
    }
  }

  lemma StuckFits(c: Cfg, s: St, n: nat)
    requires Stuck(c, s, n)
    ensures c.Valid() && s.Fits()
  {
  }

  /** A windowed read that has heard nothing from its client. */
  ghost predicate Unheard(c: Cfg, s: St)
    requires c.opening.Opened?
  {
    && s.Fits() && !s.crashed
    && match s.stat
       case NeedInit => !s.WasError() && !s.last
       case AckOptions => !s.WasError() && !s.last && s.file == FileSt(SrvReq.Read, c.opening.content, false)
       case ErrorAndStop => true
       case Finish => true
       case _ =>
         && (s.stat == AckRx || s.stat == DataTx || s.stat == Retransmit)
         && s.stage == 0 && !s.last && !s.WasError()
         && s.file == FileSt(SrvReq.Read, c.opening.content, s.file.fail)
  }

  ghost predicate WindowedRead(c: Cfg) {
    c.Valid() && c.opt.req == SrvReq.Read && c.opening.Opened? && c.Blk() > 0 && c.Window() >= 2
  }

  lemma WindowedHasOptions(c: Cfg)
    requires WindowedRead(c)
    ensures c.opt.WasSetAny()
  {
  }

  lemma UnheardStep(c: Cfg, s: St, ev: Ev)
    requires WindowedRead(c) && Unheard(c, s)
    requires ev.rx.Packet? ==> ev.rx.from != c.client
    ensures Unheard(c, Step(c, s, ev))
  {
    hide Encode, Overwrite, StepDataTx, StepAckRx;
    WindowedHasOptions(c);
    if s.stat == DataTx {
      StageZeroSends(c, s, ev);
    } else if s.stat == AckRx {
      UnheardWaits(c, s, ev);
    }
  }

  lemma UnheardWaits(c: Cfg, s: St, ev: Ev)
    requires WindowedRead(c) && Unheard(c, s) && s.stat == AckRx
    requires ev.rx.Packet? ==> ev.rx.from != c.client
    ensures Unheard(c, Step(c, s, ev))
  {
    hide Encode, Overwrite, Clip;
  }

  lemma {:induction false} UnheardRun(c: Cfg, evs: seq<Ev>)
    requires WindowedRead(c) && forall i :: 0 <= i < |evs| && evs[i].rx.Packet? ==> evs[i].rx.from != c.client
    ensures Unheard(c, Exec(c, evs))
  {
    hide Step, Unheard;
    if evs == [] {
      StartUnheard(c);
    } else {
      UnheardRun(c, evs[..|evs| - 1]);
      UnheardStep(c, Exec(c, evs[..|evs| - 1]), evs[|evs| - 1]);
    }
  }

  lemma StartUnheard(c: Cfg)
    requires c.opening.Opened?
    ensures Unheard(c, Start())
  {
  }

  lemma FirstAnswer(c: Cfg, s: St, expired: bool)
    requires WindowedRead(c) && |c.opening.content| >= c.Blk() && Unheard(c, s) && s.stat == AckRx
    ensures var t := Step(c, s, FromClient(c, Ack(0), expired));
            Stuck(c, t, 1) && t.sent == s.sent && t.file == s.file
  {
    hide Step, Accepts, RxStage, WindowClosed;
    NeighbourNumbers(0);
    TakesAck(c, s, 0, expired);
    LastBlockBounds(|c.opening.content|, c.Blk());
    assert LastBlock(|c.opening.content|, c.Blk()) >= 2;
    NotClosed(c);
  }

  /** A read with a window of two or more, of a file of at least one block, never ends
      once its client has answered the option acknowledgement, whatever happened before
      and whatever comes: it goes on sending packets numbered 1 and nothing else. Unless
      the stream had failed before, they are all block 1. */
  lemma WindowedReadNeverEnds(c: Cfg, before: seq<Ev>, expired: bool, evs: seq<Ev>)
    requires WindowedRead(c) && |c.opening.content| >= c.Blk()
    requires forall i :: 0 <= i < |before| && before[i].rx.Packet? ==> before[i].rx.from != c.client
    requires Exec(c, before).stat == AckRx
    ensures var s := Exec(c, before);
            var t := Exec(c, before + [FromClient(c, Ack(0), expired)] + evs);
            && t.stat == DataTx && t.stage == 1 && |t.sent| == |s.sent| + |evs|
            && (!s.file.fail ==> t.sent == s.sent + Copies(DataPkt(c.opening.content, c.Blk(), 1), |evs|))
  {
    hide Step, ExecFrom, WindowClosed, DataPkt, Unheard, FromClient, FinalBlock;
    UnheardRun(c, before);
    var s, ack := Exec(c, before), FromClient(c, Ack(0), expired);
    FirstAnswer(c, s, expired);
    ExecSnoc(c, before, ack);
    var s1 := Exec(c, before + [ack]);
    ExecTwo(c, Start(), before + [ack], evs);
    StuckForever(c, s1, 1, evs);
    if !s.file.fail {
      UnheardFile(c, s);
      SendsForever(c, s1, 1, evs);
    }
  }

  lemma UnheardFile(c: Cfg, s: St)
    requires c.opening.Opened? && Unheard(c, s) && s.stat == AckRx
    ensures s.file.content == c.opening.content
  {
  }

  lemma {:induction false} ExecTwo(c: Cfg, s: St, a: seq<Ev>, b: seq<Ev>)
    requires c.Valid() && s.Fits()
    ensures ExecFrom(c, s, a + b) == ExecFrom(c, ExecFrom(c, s, a), b)
    decreases |b|
  {
    hide Step;
    if b == [] {
      assert a + b == a;
    } else {
      ExecTwo(c, s, a, b[..|b| - 1]);
      assert (a + b)[..|a + b| - 1] == a + b[..|b| - 1];
    }
  }

  lemma NotClosed(c: Cfg)
    requires c.Window() >= 2
    ensures !WindowClosed(c, 1)
  {
  }
}
