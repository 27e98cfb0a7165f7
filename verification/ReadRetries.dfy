/** Reads over every run, also those with a retransmission at stage 0 or with strange
    packets: these change which bytes a packet carries, but not the course of the
    session. Every run is followed by a tame one, and what the tame runs decide about
    the course holds for all runs. */
module ReadRetries {
  import opened Octets
  import opened Requests
  import opened DataFile
  import opened SessionModel
  import opened SessionLaws
  import opened BlockSteps
  import opened Channels
  import opened ReadProtocol
  import opened ReadRuns
  import opened ReadRecovery

  // ----------------------------------------------------------- twin sessions

  /** Packets that differ at most in the bytes they carry. */
  predicate Like(p: Pkt, q: Pkt) {
    p == q || (p.Data? && q.Data? && p.num == q.num && |p.payload| == |q.payload|)
  }

  predicate AllLike(a: seq<Pkt>, b: seq<Pkt>) {
    |a| == |b| && forall i :: 0 <= i < |a| ==> Like(a[i], b[i])
  }

  /** Session `s` has as many retries left as session `t` has under the limit `l`, as
      long as that matters. The largest limit leaves any number. */
  predicate SameRetries(c: Cfg, l: nat, s: St, t: St) {
    || s.stat == ErrorAndStop || s.stat == Finish
    || (if c.limit == WIRE - 1 then l == c.limit
        else l <= c.limit && s.retr == t.retr + (c.limit - l) && s.retr <= c.limit)
  }

  /** Sessions that differ at most in their buffers, their streams' failures, the
      bytes they have sent and the retries they have made. */
  ghost predicate Twins(c: Cfg, l: nat, s: St, t: St) {
    && s.Fits() && t.Fits() && !s.crashed
    && s == t.(buf := s.buf, sent := s.sent, retr := s.retr, file := t.file.(fail := s.file.fail))
    && SameRetries(c, l, s, t)
  }

  /** What a step adds to the packets sent is alike. */
  predicate SentAlike(s: St, s1: St, t: St, t1: St) {
    AllLike(News(s.sent, s1.sent), News(t.sent, t1.sent))
  }

  lemma TwinsRetriable(c: Cfg, l: nat, s: St, t: St)
    requires Setting(c) && l < WIRE && Twins(c, l, s, t) && s.stat != ErrorAndStop && s.stat != Finish
    ensures Retriable(c, s) <==> Retriable(Limited(c, l), t)
  {
  }

  /** Sending any block, whatever the stream and the buffer have come to. */
  lemma SendsShape(c: Cfg, s: St, ev: Ev)
    requires Setting(c) && s.Fits() && s.stat == DataTx && !s.crashed && !s.WasError()
    requires s.file.req == SrvReq.Read && 1 <= s.stage <= FinalBlock(c, s.file.content)
    ensures var t := Step(c, s, ev);
            var n := |Block(s.file.content, c.Blk(), s.stage)|;
            && 4 + n <= |t.buf|
            && t == s.(buf := t.buf, file := s.file.(fail := t.file.fail), last := n != c.Blk(), stat := AckRx,
                       sent := s.sent + [Data(Num(s.stage), t.buf[4..4 + n])])
  {
    hide ConstructData, Block, WindowClosed;
    ConstructKeeps(c, s);
    ConstructPayload(c, s);
    BlockSizes(s.file.content, c.Blk(), s.stage);
    SingleWindow(c, s.stage);
  }

  lemma TwinsStart(c: Cfg, l: nat, s: St, t: St, ev: Ev, ev1: Ev)
    requires Setting(c) && l < WIRE && Twins(c, l, s, t) && !t.WasError()
    requires s.stat == NeedInit || s.stat == AckOptions || s.stat == ErrorAndStop
    ensures var s1, t1 := Step(c, s, ev), Step(Limited(c, l), t, ev1);
            Twins(c, l, s1, t1) && SentAlike(s, s1, t, t1)
  {
    hide Encode, Overwrite;
    NewsOf(s.sent, Oack(c.opt), []);
    NewsOf(t.sent, Oack(c.opt), []);
  }

  lemma TwinsSend(c: Cfg, l: nat, s: St, t: St, ev: Ev, ev1: Ev)
    requires Setting(c) && l < WIRE && Twins(c, l, s, t) && !t.WasError() && s.stat == DataTx
    requires t.file.req == SrvReq.Read && 1 <= t.stage <= FinalBlock(c, t.file.content)
    ensures var s1, t1 := Step(c, s, ev), Step(Limited(c, l), t, ev1);
            Twins(c, l, s1, t1) && SentAlike(s, s1, t, t1)
  {
    hide Step, Block;
    SameSizes(c, l);
    SendsShape(c, s, ev);
    SendsShape(Limited(c, l), t, ev1);
    NewsOf(s.sent, Step(c, s, ev).sent[|s.sent|], []);
    NewsOf(t.sent, Step(Limited(c, l), t, ev1).sent[|t.sent|], []);
  }

  lemma TwinsAcked(c: Cfg, l: nat, s: St, t: St, num: nat, expired: bool)
    requires Setting(c) && l < WIRE && Twins(c, l, s, t) && !t.WasError() && s.stat == AckRx && num < WIRE
    ensures var s1, t1 := Step(c, s, FromClient(c, Ack(num), expired)),
                          Step(Limited(c, l), t, FromClient(Limited(c, l), Ack(num), expired));
            Twins(c, l, s1, t1) && SentAlike(s, s1, t, t1)
  {
    hide Step, Accepts, RxStage;
    TakesAck(c, s, num, expired);
    TakesAck(Limited(c, l), t, num, expired);
    NewsOf(s.sent, Ack(0), []);
    NewsOf(t.sent, Ack(0), []);
  }

  /** A turn in which nothing arrives that the session looks at. */
  predicate NotForUs(c: Cfg, rx: Rx) {
    rx.Nothing? || (rx.Packet? && rx.from != c.client)
  }

  lemma TwinsWait(c: Cfg, l: nat, s: St, t: St, rx: Rx, rx1: Rx, expired: bool)
    requires Setting(c) && l < WIRE && Twins(c, l, s, t) && s.stat == AckRx && NotForUs(c, rx) && NotForUs(c, rx1)
    ensures var s1, t1 := Step(c, s, Ev(rx, expired)), Step(Limited(c, l), t, Ev(rx1, expired));
            Twins(c, l, s1, t1) && SentAlike(s, s1, t, t1)
  {
    hide Step, Clip;
    NothingForUs(c, s, rx, expired);
    NothingForUs(Limited(c, l), t, rx1, expired);
    NewsOf(s.sent, Ack(0), []);
    NewsOf(t.sent, Ack(0), []);
  }

  lemma TwinsRetry(c: Cfg, l: nat, s: St, t: St, ev: Ev, ev1: Ev)
    requires Setting(c) && l < WIRE && Twins(c, l, s, t) && (s.stat == Retransmit || s.stat == Finish)
    ensures var s1, t1 := Step(c, s, ev), Step(Limited(c, l), t, ev1);
            Twins(c, l, s1, t1) && SentAlike(s, s1, t, t1)
  {
    NewsOf(s.sent, Ack(0), []);
    NewsOf(t.sent, Ack(0), []);
  }

  // ------------------------------------------------------------ twin systems

  /** Systems whose sessions are twins, whose clients stand at the same block with as
      many bytes, and whose channels are alike. */
  ghost predicate Mirrors(c: Cfg, l: nat, u: Sys, v: Sys) {
    && l < WIRE && Twins(c, l, u.srv, v.srv)
    && u.next == v.next && u.done == v.done && |u.got| == |v.got| && u.up == v.up
    && AllLike(u.down, v.down)
  }

  /** The same event, or silence in place of a strange packet. */
  predicate SameEvent(c: Cfg, ev: Event, x: Event) {
    x == ev || (ev.Stranger? && ev.from != c.client && x == Server(false, ev.expired))
  }

  lemma MirrorsServer(c: Cfg, l: nat, u: Sys, v: Sys, ev: Ev, ev1: Ev, up: seq<Pkt>)
    requires Setting(c) && Mirrors(c, l, u, v)
    requires var s1, t1 := Step(c, u.srv, ev), Step(Limited(c, l), v.srv, ev1);
             Twins(c, l, s1, t1) && SentAlike(u.srv, s1, v.srv, t1)
    ensures Mirrors(c, l, ServerStep(c, u, ev, up), ServerStep(Limited(c, l), v, ev1, up))
  {
    hide Step;
  }

  /** What the invariant says about a session whose twin is to take a step. */
  lemma InvForTwins(c: Cfg, w: Sys)
    requires Setting(c) && Inv(c, w)
    ensures var s := w.srv;
            && (s.stat != Finish ==> !s.WasError())
            && s.stat != DataRx && s.stat != AckTx
            && (s.stat == DataTx ==> s.stage >= 1)
            && (s.stat == DataTx || s.stat == AckRx || s.stat == Retransmit ==>
                  s.file.req == SrvReq.Read && s.file.content == File(c) && s.stage <= FinalBlock(c, File(c)))
  {
    hide ClientFine, Linked, Loaded;
  }

  lemma MirrorsTurn(c: Cfg, l: nat, u: Sys, v: Sys, rx: Rx, rx1: Rx, expired: bool)
    requires Setting(c) && Mirrors(c, l, u, v) && Inv(Limited(c, l), v) && NotForUs(c, rx) && NotForUs(c, rx1)
    ensures Mirrors(c, l, ServerStep(c, u, Ev(rx, expired), u.up), ServerStep(Limited(c, l), v, Ev(rx1, expired), u.up))
  {
    hide Step, Twins, ServerStep, Inv;
    InvForTwins(Limited(c, l), v);
    SameSizes(c, l);
    var ev, ev1 := Ev(rx, expired), Ev(rx1, expired);
    TwinsStat(c, l, u.srv, v.srv);
    if v.srv.stat == AckRx {
      TwinsWait(c, l, u.srv, v.srv, rx, rx1, expired);
    } else if v.srv.stat == DataTx {
      TwinsSend(c, l, u.srv, v.srv, ev, ev1);
    } else if v.srv.stat == Retransmit || v.srv.stat == Finish {
      TwinsRetry(c, l, u.srv, v.srv, ev, ev1);
    } else {
      TwinsStart(c, l, u.srv, v.srv, ev, ev1);
    }
    MirrorsServer(c, l, u, v, ev, ev1, u.up);
  }

  lemma TwinsStat(c: Cfg, l: nat, s: St, t: St)
    requires Twins(c, l, s, t)
    ensures s.stat == t.stat && s.stage == t.stage && s.last == t.last && s.Fits() && t.Fits()
    ensures s.WasError() <==> t.WasError()
  {
  }

  lemma MirrorsDelivery(c: Cfg, l: nat, u: Sys, v: Sys, expired: bool)
    requires Setting(c) && Mirrors(c, l, u, v) && Inv(Limited(c, l), v) && v.srv.stat == AckRx && u.up != []
    ensures Mirrors(c, l, ServerStep(c, u, FromClient(c, u.up[0], expired), u.up[1..]),
                    ServerStep(Limited(c, l), v, FromClient(Limited(c, l), u.up[0], expired), u.up[1..]))
  {
    hide Step, Twins, ServerStep, Linked, ClientFine, Loaded;
    HeadOfUp(Limited(c, l), v, v.srv.stage);
    TwinsStat(c, l, u.srv, v.srv);
    TwinsAcked(c, l, u.srv, v.srv, u.up[0].num, expired);
    MirrorsServer(c, l, u, v, FromClient(c, u.up[0], expired), FromClient(Limited(c, l), u.up[0], expired), u.up[1..]);
  }

  lemma MirrorsPeers(c: Cfg, l: nat, u: Sys, v: Sys, ev: Event)
    requires Setting(c) && Mirrors(c, l, u, v) && !ev.Server? && !ev.Stranger?
    requires u.srv.Fits() && v.srv.Fits()
    ensures Mirrors(c, l, Next(c, u, ev), Next(Limited(c, l), v, ev))
  {
    hide Twins;
    SameSizes(c, l);
  }

  lemma MirrorsNext(c: Cfg, l: nat, u: Sys, v: Sys, ev: Event, x: Event)
    requires Setting(c) && Mirrors(c, l, u, v) && Inv(Limited(c, l), v) && SameEvent(c, ev, x)
    ensures u.srv.Fits() && v.srv.Fits() && Mirrors(c, l, Next(c, u, ev), Next(Limited(c, l), v, x))
  {
    hide ServerStep, Twins, Inv, FromClient;
    TwinsStat(c, l, u.srv, v.srv);
    if ev.Server? {
      if ev.deliver && u.up != [] && u.srv.stat == AckRx {
        MirrorsDelivery(c, l, u, v, ev.expired);
      } else {
        MirrorsTurn(c, l, u, v, Nothing, Nothing, ev.expired);
      }
    } else if ev.Stranger? {
      if ev.from != c.client {
        var rx := Packet(ev.from, ev.bytes);
        MirrorsTurn(c, l, u, v, rx, if x == ev then rx else Nothing, ev.expired);
      }
    } else {
      MirrorsPeers(c, l, u, v, ev);
    }
  }

  // ---------------------------------------------------- what a run comes down to

  /** What a session sends by mistake at stage 0. */
  predicate Junk(p: Pkt) {
    p.Data? && p.num == 0
  }

  function Sift(q: seq<Pkt>): (r: seq<Pkt>) {
    if q == [] then [] else (if Junk(q[0]) then [] else [q[0]]) + Sift(q[1..])
  }

  /** No such packet comes behind a block. */
  predicate JunkFirst(q: seq<Pkt>) {
    forall i, j :: 0 <= i < j < |q| && Junk(q[j]) && q[i].Data? ==> Junk(q[i])
  }

  lemma {:induction false} SiftFirst(p: Pkt, q: seq<Pkt>)
    ensures Sift([p] + q) == (if Junk(p) then [] else [p]) + Sift(q)
  {
    assert ([p] + q)[1..] == q;
  }

  lemma {:induction false} SiftTwo(a: seq<Pkt>, b: seq<Pkt>)
    ensures Sift(a + b) == Sift(a) + Sift(b)
  {
    hide Sift, Junk;
    if a == [] {
      SiftEmpty();
      assert a + b == b;
    } else {
      var p, rest := a[0], a[1..];
      SiftTwo(rest, b);
      SiftFirst(p, rest);
      SiftFirst(p, rest + b);
      assert a == [p] + rest && a + b == [p] + (rest + b);
    }
  }

  lemma SiftOne(p: Pkt)
    ensures Sift([p]) == if Junk(p) then [] else [p]
  {
    assert [p][1..] == [];
  }

  lemma {:induction false} SiftNone(q: seq<Pkt>)
    requires forall i :: 0 <= i < |q| ==> !Junk(q[i])
    ensures Sift(q) == q
  {
    if q != [] {
      SiftNone(q[1..]);
    }
  }

  lemma {:induction false} SiftIn(q: seq<Pkt>, p: Pkt)
    ensures p in Sift(q) <==> p in q && !Junk(p)
  {
    hide Junk;
    if q != [] {
      SiftIn(q[1..], p);
      assert p in q <==> p == q[0] || p in q[1..];
    }
  }

  /** Losing or doubling a packet, seen behind the sieve. */
  lemma SiftMoves(q: seq<Pkt>, i: nat) returns (k: nat)
    requires i < |q|
    ensures Junk(q[i]) ==> Sift(Lose(q, i)) == Sift(q) && Sift(Twice(q, i)) == Sift(q)
    ensures !Junk(q[i]) ==> Sift(Lose(q, i)) == Lose(Sift(q), k) && Sift(Twice(q, i)) == Twice(Sift(q), k)
  {
    hide Sift, Junk;
    var a, p, b := q[..i], q[i], q[i + 1..];
    k := |Sift(a)|;
    SiftOne(p);
    SiftTwo(a, b);
    SiftTwo(a, [p]);
    SiftTwo(a + [p], b);
    SiftTwo(a + [p], [p] + b);
    SiftTwo([p], b);
    assert q == a + [p] + b && Lose(q, i) == a + b && q[..i + 1] == a + [p] && q[i..] == [p] + b;
  }

  lemma JunkFirstMoves(q: seq<Pkt>, i: nat)
    requires JunkFirst(q)
    ensures JunkFirst(Lose(q, i)) && JunkFirst(Twice(q, i))
  {
    hide Junk;
  }

  /** Behind a block there is nothing to sift. */
  lemma JunkFirstTake(q: seq<Pkt>)
    requires JunkFirst(q) && q != []
    ensures JunkFirst(q[1..])
    ensures q[0].Data? && !Junk(q[0]) ==> Sift(q[1..]) == q[1..]
  {
    hide Junk;
    if q[0].Data? && !Junk(q[0]) {
      SiftNone(q[1..]);
    }
  }

  /** A session that is about to send by mistake, or that has just been told to. */
  predicate Astray(c: Cfg, s: St) {
    s.stage == 0 && (s.stat == DataTx || (s.stat == Retransmit && Retriable(c, s)))
  }

  function Settled(c: Cfg, s: St): (r: St) {
    if Astray(c, s) then s.(stat := AckRx) else s
  }

  /** The system without the mistakes at stage 0: the session is seen as still
      waiting, and a client that waits for block 1 or less sees none of the packets. */
  function View(c: Cfg, w: Sys): (r: Sys) {
    w.(srv := Settled(c, w.srv), down := if w.next <= 1 then Sift(w.down) else w.down)
  }

  ghost predicate Ordered(w: Sys) {
    w.next <= 1 ==> JunkFirst(w.down)
  }

  /** A peer's event, seen from there: one event, or none. */
  lemma PeersSeen(c: Cfg, w: Sys, ev: Event) returns (xs: seq<Event>)
    requires Setting(c) && w.srv.Fits() && Ordered(w) && !ev.Server? && !ev.Stranger?
    ensures Settled(c, w.srv).Fits() && View(c, w).srv.Fits()
    ensures |xs| <= 1 && (xs != [] ==> !xs[0].Server? && !xs[0].Stranger?)
    ensures var t := Next(c, w, ev);
            && Ordered(t) && t.srv == w.srv
            && View(c, t) == if xs == [] then View(c, w) else Next(c, View(c, w), xs[0])
  {
    hide Settled, Sift, JunkFirst, AckOf;
    SettledFits(c, w.srv);
    xs := [ev];
    if ev.ClientTakes? {
      if w.next <= 1 && w.down != [] {
        xs := TakeSeen(c, w, ev.reack);
      } else if w.down == [] {
        SiftEmpty();
      }
    } else if (ev.LoseDown? || ev.TwiceDown?) && w.next <= 1 {
      JunkFirstMoves(w.down, ev.i);
      if ev.i >= |w.down| {
        xs := [];
      } else {
        var k := SiftMoves(w.down, ev.i);
        xs := if Junk(w.down[ev.i]) then [] else if ev.LoseDown? then [LoseDown(k)] else [TwiceDown(k)];
      }
    }
  }

  lemma SettledFits(c: Cfg, s: St)
    ensures Settled(c, s) == s.(stat := Settled(c, s).stat)
    ensures s.Fits() ==> Settled(c, s).Fits()
  {
  }

  lemma SiftEmpty()
    ensures Sift([]) == [] && JunkFirst([])
  {
  }

  lemma TakeSeen(c: Cfg, w: Sys, reack: bool) returns (xs: seq<Event>)
    requires Setting(c) && JunkFirst(w.down) && w.next <= 1 && w.down != []
    ensures |xs| <= 1 && (xs != [] ==> xs[0] == ClientTakes(reack))
    ensures var t := ClientStep(c, w, reack);
            && Ordered(t) && t.srv == w.srv
            && View(c, t) == if xs == [] then View(c, w) else ClientStep(c, View(c, w), reack)
  {
    hide Settled, AckOf, JunkFirst, Sift;
    JunkFirstTake(w.down);
    SiftFirst(w.down[0], w.down[1..]);
    assert w.down == [w.down[0]] + w.down[1..];
    xs := if Junk(w.down[0]) then [] else [ClientTakes(reack)];
  }

  /** A turn of a session that is not, and does not go, astray. */
  lemma TurnSeen(c: Cfg, w: Sys, ev: Ev, up: seq<Pkt>)
    requires Setting(c) && w.srv.Fits() && Ordered(w)
    requires !Astray(c, w.srv) && !Astray(c, Step(c, w.srv, ev))
    requires w.next <= 1 ==> forall p :: p in News(w.srv.sent, Step(c, w.srv, ev).sent) ==> !Junk(p)
    ensures View(c, w).srv.Fits()
    ensures var t := ServerStep(c, w, ev, up);
            Ordered(t) && View(c, t) == ServerStep(c, View(c, w), ev, up)
  {
    hide Step, Sift, News;
    var more := News(w.srv.sent, Step(c, w.srv, ev).sent);
    SiftTwo(w.down, more);
    if w.next <= 1 {
      SiftNone(more);
    }
  }

  // ---------------------------------------------------------- the tame run beside

  /** The session's state `v` does not depend on the limit. */
  ghost predicate Free(c: Cfg, evs: seq<Event>, v: Sys)
    requires Setting(c)
  {
    forall l: nat :: l < WIRE ==> Tame(Limited(c, l), evs) && Run(Limited(c, l), evs) == v
  }

  /** Before the first block. */
  predicate Early(s: St) {
    s.stat == NeedInit || s.stat == AckOptions || (s.stat == AckRx && s.stage == 0)
  }

  /** The system `w` follows the tame run `evs` under the limit `l`. */
  ghost predicate Follows(c: Cfg, w: Sys, l: nat, evs: seq<Event>)
    requires Setting(c)
  {
    && l < WIRE && w.srv.Fits() && Ordered(w) && Tame(Limited(c, l), evs)
    && var v := Run(Limited(c, l), evs);
       && Mirrors(c, l, View(c, w), v) && !Derails(Limited(c, l), v.srv)
       && (Early(v.srv) ==> Free(c, evs, v))
  }

  lemma EarlyBefore(c: Cfg, v: Sys, x: Event)
    requires Setting(c) && Inv(c, v) && v.srv.Fits()
    ensures Early(Next(c, v, x).srv) ==> Early(v.srv)
  {
    hide Step, Linked, ClientFine, Loaded, Encode, ClientStep, Clip, AckOf, Block, Inv;
    InvForTwins(c, v);
    InvFits(c, v);
    if x.Server? && x.deliver && v.up != [] && v.srv.stat == AckRx {
      AckMovesOn(c, v, x.expired);
    } else if x.Server? || (x.Stranger? && x.from != c.client) {
      TurnMovesOn(c, v.srv, Ev(if x.Server? then Nothing else Packet(x.from, x.bytes), x.expired));
    } else if !x.Stranger? {
      PeerKeepsServer(c, v, x);
    }
  }

  lemma AckMovesOn(c: Cfg, v: Sys, expired: bool)
    requires Setting(c) && Inv(c, v) && v.srv.stat == AckRx && v.up != []
    ensures var t := Step(c, v.srv, FromClient(c, v.up[0], expired));
            t.stat == Finish || (t.stat == DataTx && t.stage >= 1)
  {
    hide Step, Linked, ClientFine, Loaded, Encode;
    HeadOfUp(c, v, v.srv.stage);
    TakesAck(c, v.srv, v.up[0].num, expired);
  }

  lemma TurnMovesOn(c: Cfg, s: St, ev: Ev)
    requires Setting(c) && s.Fits() && !s.crashed && NotForUs(c, ev.rx) && (s.stat != Finish ==> !s.WasError())
    requires s.stat == DataTx || s.stat == AckRx || s.stat == Retransmit ==>
               s.file.req == SrvReq.Read && s.file.content == File(c) && s.stage <= FinalBlock(c, File(c))
    requires s.stat == DataTx ==> s.stage >= 1
    requires s.stat != DataRx && s.stat != AckTx
    ensures var t := Step(c, s, ev);
            && (s.stat == AckRx ==> t.stage == s.stage && t.stat == (if ev.expired then Retransmit else AckRx))
            && (s.stat == DataTx ==> t.stage == s.stage && t.stat == AckRx)
            && (s.stat == Retransmit ==> t.stat == DataTx || t.stat == ErrorAndStop)
            && (s.stat == ErrorAndStop || s.stat == Finish ==> t.stat == Finish)
            && (t.stat == Retransmit ==> s.stat == AckRx && t.retr == s.retr)
  {
    hide Encode, Overwrite, Block, Clip, Receive, ConstructData, FinalBlock;
    if s.stat == AckRx {
      NothingForUs(c, s, ev.rx, ev.expired);
    } else if s.stat == DataTx {
      SendsShape(c, s, ev);
    }
  }

  lemma FreeNext(c: Cfg, evs: seq<Event>, v: Sys, x: Event)
    requires Setting(c) && v.srv.Fits() && v.srv.stat != Retransmit && !x.Stranger? && Free(c, evs, v)
    ensures Free(c, evs + [x], Next(c, v, x))
  {
    hide Next, Tame, RunFrom;
    forall l: nat | l < WIRE
      ensures Tame(Limited(c, l), evs + [x]) && Run(Limited(c, l), evs + [x]) == Next(c, v, x)
    {
      NextUnlimited(c, l, v, x);
      RunThen(Limited(c, l), Init(c), evs, x);
      TameThen(Limited(c, l), evs, x);
    }
  }

  lemma {:induction false} TameThen(c: Cfg, evs: seq<Event>, x: Event)
    requires Setting(c)
    ensures Tame(c, evs + [x]) <==> Tame(c, evs) && !Breaks(c, Run(c, evs), x)
  {
    hide Breaks, RunFrom;
    assert (evs + [x])[..|evs|] == evs;
  }

  /** The tame run goes on by the event the view has met. */
  lemma Goes(c: Cfg, w: Sys, l: nat, evs: seq<Event>, t: Sys, ev: Event, x: Event)
    requires Setting(c) && Follows(c, w, l, evs) && SameEvent(c, ev, x) && !x.Stranger?
    requires t.srv.Fits() && Ordered(t) && View(c, w).srv.Fits() && View(c, t) == Next(c, View(c, w), ev)
    requires !Derails(Limited(c, l), Next(Limited(c, l), Run(Limited(c, l), evs), x).srv)
    ensures Follows(c, t, l, evs + [x])
  {
    hide Next, RunFrom, Tame, View, Ordered, Mirrors, Inv, Free;
    var d := Limited(c, l);
    var v := Run(d, evs);
    InvariantHolds(d, evs);
    MirrorsNext(c, l, View(c, w), v, ev, x);
    RunThen(d, Init(d), evs, x);
    TameThen(d, evs, x);
    if Early(Next(d, v, x).srv) {
      EarlyBefore(d, v, x);
      FreeNext(c, evs, v, x);
      NextUnlimited(c, l, v, x);
    }
  }

  lemma FollowsPeers(c: Cfg, w: Sys, l: nat, evs: seq<Event>, ev: Event) returns (more: seq<Event>)
    requires Setting(c) && Follows(c, w, l, evs) && !ev.Server? && !ev.Stranger?
    ensures |more| <= 1 && Follows(c, Next(c, w, ev), l, evs + more)
  {
    hide Next, RunFrom, Tame, View, Mirrors, Free;
    more := PeersSeen(c, w, ev);
    if more == [] {
      assert evs + more == evs;
    } else {
      PeerKeepsServer(Limited(c, l), Run(Limited(c, l), evs), more[0]);
      Goes(c, w, l, evs, Next(c, w, ev), more[0], more[0]);
      assert more == [more[0]];
    }
  }

  lemma PeerKeepsServer(c: Cfg, v: Sys, x: Event)
    requires Setting(c) && v.srv.Fits() && !x.Server? && !x.Stranger?
    ensures Next(c, v, x).srv == v.srv
  {
  }

  // ------------------------------------------------------------- going astray

  /** What is known of a session at stage 0, seen as waiting. */
  lemma SeenWaiting(c: Cfg, w: Sys, l: nat, v: Sys)
    requires Setting(c) && w.srv.Fits() && Mirrors(c, l, View(c, w), v) && Inv(Limited(c, l), v)
    requires v.srv.stat == AckRx && v.srv.stage == 0
    ensures var s := w.srv;
            && !s.crashed && !s.WasError() && !s.last && s.stage == 0 && s.file.req == SrvReq.Read
            && w.next <= 1
    ensures forall p :: p in w.down && p.Data? ==> Junk(p)
  {
    hide Loaded, Sift;
    forall p | p in w.down && p.Data?
      ensures Junk(p)
    {
      SiftIn(w.down, p);
    }
  }

  /** The timer expires at stage 0 while a retry is left: seen from the tame run,
      nothing happens. */
  lemma GoesAstray(c: Cfg, w: Sys, l: nat, evs: seq<Event>, rx: Rx)
    requires Setting(c) && Follows(c, w, l, evs) && NotForUs(c, rx)
    requires w.srv.stat == AckRx && w.srv.stage == 0 && Retriable(c, w.srv)
    ensures Follows(c, ServerStep(c, w, Ev(rx, true), w.up), l, evs)
  {
    hide Step, RunFrom, Tame, Free, Clip, Sift, JunkFirst, Derails;
    NothingForUs(c, w.srv, rx, true);
    NewsOf(w.srv.sent, Ack(0), w.down);
  }

  /** The retry is made: the tame run has had one retry less to begin with. */
  lemma RetriesAstray(c: Cfg, w: Sys, l: nat, evs: seq<Event>, ev: Ev) returns (l1: nat)
    requires Setting(c) && Follows(c, w, l, evs) && Astray(c, w.srv) && w.srv.stat == Retransmit
    ensures l1 < WIRE && Follows(c, ServerStep(c, w, ev, w.up), l1, evs)
    ensures Run(Limited(c, l1), evs) == Run(Limited(c, l), evs)
  {
    hide RunFrom, Tame, Sift, JunkFirst;
    l1 := if c.limit == WIRE - 1 then l else l - 1;
    NewsOf(w.srv.sent, Ack(0), w.down);
  }

  lemma SendsAstray(c: Cfg, w: Sys, l: nat, evs: seq<Event>, ev: Ev)
    requires Setting(c) && Follows(c, w, l, evs) && Astray(c, w.srv) && w.srv.stat == DataTx
    ensures Follows(c, ServerStep(c, w, ev, w.up), l, evs)
  {
    hide Step, RunFrom, Tame, Free, Sift, Inv, Derails;
    var v := Run(Limited(c, l), evs);
    InvariantHolds(Limited(c, l), evs);
    SeenWaiting(c, w, l, v);
    StageZeroSends(c, w.srv, ev);
    var p := Data(0, w.srv.buf[4..4 + c.Blk()]);
    NewsOf(w.srv.sent, p, w.down);
    SiftTwo(w.down, [p]);
    SiftOne(p);
  }

  // ---------------------------------------------------------------- every run

  /** A session that waits at stage 0 with a retry left, and whose timer expires. */
  predicate Expires(c: Cfg, w: Sys, ev: Event) {
    && w.srv.stat == AckRx && w.srv.stage == 0 && Retriable(c, w.srv)
    && (ev.Stranger? || (ev.Server? && !(ev.deliver && w.up != []))) && ev.expired
  }

  lemma NotDerailed(c: Cfg, v: Sys, x: Event)
    requires Setting(c) && Inv(c, v) && v.srv.Fits() && !Derails(c, v.srv) && !x.Stranger? && !Expires(c, v, x)
    ensures !Derails(c, Next(c, v, x).srv)
  {
    hide Step, Linked, ClientFine, Loaded, Encode, ClientStep, AckOf, Inv;
    InvForTwins(c, v);
    InvFits(c, v);
    if x.Server? {
      if x.deliver && v.up != [] && v.srv.stat == AckRx {
        AckMovesOn(c, v, x.expired);
      } else {
        TurnMovesOn(c, v.srv, Ev(Nothing, x.expired));
      }
    } else {
      PeerKeepsServer(c, v, x);
    }
  }

  lemma NoNewJunk(c: Cfg, s: St, ev: Ev)
    requires Setting(c) && s.Fits() && !s.crashed && (s.stat != Finish ==> !s.WasError())
    requires s.stat == DataTx ==> s.file.req == SrvReq.Read && s.stage == 1
    ensures forall p :: p in News(s.sent, Step(c, s, ev).sent) ==> !Junk(p)
  {
    hide Encode, Overwrite, Receive, Header;
    ReceiveKeeps(c, s, ev.rx);
    if s.stat == DataTx {
      SendsShape(c, s, ev);
    }
  }

  /** The session's event, as an event of its own. */
  function Met(c: Cfg, w: Sys, ev: Event): (r: Ev)
    requires ev.Server? || ev.Stranger?
  {
    if ev.Stranger? then Ev(Packet(ev.from, ev.bytes), ev.expired)
    else if ev.deliver && w.up != [] && w.srv.stat == AckRx then FromClient(c, w.up[0], ev.expired)
    else Ev(Nothing, ev.expired)
  }

  /** A turn that goes as in the tame run. */
  lemma GoesStraight(c: Cfg, w: Sys, l: nat, evs: seq<Event>, ev: Event, x: Event)
    requires Setting(c) && Follows(c, w, l, evs) && SameEvent(c, ev, x) && x.Server?
    requires !Astray(c, w.srv) && !Expires(c, w, ev)
    ensures Follows(c, Next(c, w, ev), l, evs + [x])
  {
    hide RunFrom, Tame, Free, Step, Sift, JunkFirst, Inv, FromClient, Retriable;
    var d := Limited(c, l);
    var v := Run(d, evs);
    InvariantHolds(d, evs);
    InvForTwins(d, v);
    TwinsStat(c, l, w.srv, v.srv);
    if w.srv.stat != ErrorAndStop && w.srv.stat != Finish {
      TwinsRetriable(c, l, w.srv, v.srv);
    }
    NotDerailed(d, v, x);
    StraightOn(c, w, l, v, ev, x);
    if w.next <= 1 {
      NearBlock(d, v);
      NoNewJunk(c, w.srv, Met(c, w, ev));
    }
    TurnSeen(c, w, Met(c, w, ev), Next(c, w, ev).up);
    Goes(c, w, l, evs, Next(c, w, ev), ev, x);
  }

  lemma NearBlock(c: Cfg, v: Sys)
    requires Setting(c) && Inv(c, v)
    ensures v.srv.stat == DataTx && v.next <= 1 ==> v.srv.stage == 1
  {
    hide ClientFine, Loaded, Phases;
  }

  lemma StraightOn(c: Cfg, w: Sys, l: nat, v: Sys, ev: Event, x: Event)
    requires Setting(c) && w.srv.Fits() && Mirrors(c, l, View(c, w), v) && !Astray(c, w.srv)
    requires Inv(Limited(c, l), v) && !Derails(Limited(c, l), v.srv) && SameEvent(c, ev, x) && x.Server?
    requires !Derails(Limited(c, l), Next(Limited(c, l), v, x).srv)
    ensures !Astray(c, Step(c, w.srv, Met(c, w, ev)))
  {
    hide Step, Sift, Inv, FromClient, Retriable;
    var d := Limited(c, l);
    MirrorsNext(c, l, View(c, w), v, ev, x);
    NextKeeps(d, v, x);
    InvForTwins(d, Next(d, v, x));
    var s, t := Step(c, w.srv, Met(c, w, ev)), Next(d, v, x).srv;
    TwinsStat(c, l, s, t);
    if s.stat == Retransmit {
      TwinsRetriable(c, l, s, t);
    }
  }

  /** Every event of every run is followed: by one event of the tame run or by none,
      and the limit of the tame run changes only before the first block. */
  lemma FollowsNext(c: Cfg, w: Sys, l: nat, evs: seq<Event>, ev: Event) returns (l1: nat, more: seq<Event>)
    requires Setting(c) && Follows(c, w, l, evs)
    ensures l1 < WIRE && |more| <= 1 && Follows(c, Next(c, w, ev), l1, evs + more)
    ensures l1 == l || (more == [] && Early(Run(Limited(c, l), evs).srv))
    ensures more == [] ==> Run(Limited(c, l1), evs) == Run(Limited(c, l), evs)
  {
    hide RunFrom, Tame, Mirrors, ServerStep, Follows, FromClient;
    FollowsFits(c, w, l, evs);
    l1, more := l, [];
    assert evs + [] == evs;
    if !ev.Server? && !ev.Stranger? {
      more := FollowsPeers(c, w, l, evs, ev);
    } else if ev.Server? || ev.from != c.client {
      var x := if ev.Server? then ev else Server(false, ev.expired);
      var rx := if ev.Server? then Nothing else Packet(ev.from, ev.bytes);
      if Astray(c, w.srv) {
        if w.srv.stat == DataTx {
          SendsAstray(c, w, l, evs, Ev(rx, ev.expired));
        } else {
          AstrayEarly(c, w, l, evs);
          l1 := RetriesAstray(c, w, l, evs, Ev(rx, ev.expired));
          FollowsFits(c, Next(c, w, ev), l1, evs);
        }
      } else if Expires(c, w, ev) {
        GoesAstray(c, w, l, evs, rx);
      } else {
        GoesStraight(c, w, l, evs, ev, x);
        more := [x];
      }
    }
  }

  lemma FollowsFits(c: Cfg, w: Sys, l: nat, evs: seq<Event>)
    requires Setting(c) && Follows(c, w, l, evs)
    ensures w.srv.Fits() && l < WIRE
  {
  }

  lemma AstrayEarly(c: Cfg, w: Sys, l: nat, evs: seq<Event>)
    requires Setting(c) && Follows(c, w, l, evs) && Astray(c, w.srv)
    ensures Early(Run(Limited(c, l), evs).srv)
  {
    hide RunFrom, Tame, Sift, Free;
  }

  lemma StartFollows(c: Cfg)
    requires Setting(c)
    ensures Follows(c, Init(c), c.limit, [])
  {
    SiftEmpty();
  }

  lemma {:induction false} RunFollows(c: Cfg, evs: seq<Event>) returns (l: nat, tame: seq<Event>)
    requires Setting(c)
    ensures l < WIRE && Follows(c, Run(c, evs), l, tame)
  {
    hide Next, Follows;
    if evs == [] {
      l, tame := c.limit, [];
      StartFollows(c);
    } else {
      var l0, tame0 := RunFollows(c, evs[..|evs| - 1]);
      var l1, more := FollowsNext(c, Run(c, evs[..|evs| - 1]), l0, tame0, evs[|evs| - 1]);
      l, tame := l1, tame0 + more;
    }
  }

  // ------------------------------------------------------- what is decided then

  /** How the tame run stands. */
  lemma FollowsWhere(c: Cfg, w: Sys, l: nat, evs: seq<Event>)
    requires Setting(c) && Follows(c, w, l, evs)
    ensures var v := Run(Limited(c, l), evs);
            && Inv(Limited(c, l), v) && w.done == v.done && w.next == v.next && |w.got| == |v.got|
            && (w.srv.WasError() <==> v.srv.WasError())
            && (!Astray(c, w.srv) ==> w.srv.stat == v.srv.stat && w.srv.stage == v.srv.stage)
            && !w.srv.crashed
  {
    hide RunFrom, Tame, Sift, Free, Inv;
    InvariantHolds(Limited(c, l), evs);
  }

  /** What is left of the safety of reads when mistakes and strangers are allowed: the
      client accepts blocks of the right length, in order, and is done exactly behind
      the last; the session throws no exception. */
  lemma ReadLengths(c: Cfg, evs: seq<Event>)
    requires Setting(c)
    ensures var w := Run(c, evs);
            && |w.got| == |Prefix(File(c), c.Blk(), if w.next == 0 then 0 else w.next - 1)|
            && (w.done <==> w.next == FinalBlock(c, File(c)) + 1)
            && (w.done ==> |w.got| == |File(c)|)
            && !w.srv.crashed
  {
    hide RunFrom, Tame, Follows, FinalBlock, Inv, Prefix;
    var l, tame := RunFollows(c, evs);
    SameFinal(c, l);
    SameSizes(c, l);
    FollowsWhere(c, Run(c, evs), l, tame);
    FollowsTame(c, Run(c, evs), l, tame);
    ReadSafety(Limited(c, l), tame);
  }

  lemma ConclusionFollowed(c: Cfg, w: Sys, l: nat, evs: seq<Event>, ev: Event)
    requires Setting(c) && Follows(c, w, l, evs) && Concludes(c, w, ev)
    ensures w.done || (FinalBlock(c, File(c)) > First(c) && Num(FinalBlock(c, File(c))) != 0)
  {
    hide Next, RunFrom, Tame, Follows, Inv;
    FollowsFits(c, w, l, evs);
    var d := Limited(c, l);
    var v := Run(d, evs);
    SameSizes(c, l);
    FollowsWhere(c, w, l, evs);
    var l1, more := FollowsNext(c, w, l, evs, ev);
    FollowsWhere(c, Next(c, w, ev), l1, evs + more);
    assert evs + [] == evs;
    if more != [] {
      assert more == [more[0]];
      RunThen(d, Init(d), evs, more[0]);
      ConclusionMeans(d, v, more[0]);
    }
  }

  /** The exact condition of `ConclusionExactly`, over every run. */
  lemma ConclusionEverExactly(c: Cfg)
    requires Setting(c)
    ensures FinalBlock(c, File(c)) == First(c) || Num(FinalBlock(c, File(c))) == 0 <==>
            forall evs: seq<Event>, ev: Event :: Concludes(c, Run(c, evs), ev) ==> Run(c, evs).done
  {
    hide Tame, Concludes, RunFrom, Follows;
    if FinalBlock(c, File(c)) == First(c) || Num(FinalBlock(c, File(c))) == 0 {
      forall evs: seq<Event>, ev: Event | Concludes(c, Run(c, evs), ev)
        ensures Run(c, evs).done
      {
        var l, tame := RunFollows(c, evs);
        ConclusionFollowed(c, Run(c, evs), l, tame, ev);
      }
    } else {
      ConclusionExactly(c);
    }
  }

  /** The exact condition of `BrokenOffExactly`, over every run. */
  lemma BrokenOffEverExactly(c: Cfg)
    requires Setting(c)
    ensures FinalBlock(c, File(c)) < WIRE <==> forall evs: seq<Event> :: !Run(c, evs).srv.WasError()
  {
    hide Tame, RunFrom, Follows, FinalBlock, Inv;
    BrokenOffExactly(c);
    if FinalBlock(c, File(c)) < WIRE {
      forall evs: seq<Event>
        ensures !Run(c, evs).srv.WasError()
      {
        var l, tame := RunFollows(c, evs);
        SameFinal(c, l);
        FollowsWhere(c, Run(c, evs), l, tame);
        if Run(c, evs).srv.WasError() {
          BrokenOffWhere(Limited(c, l), Run(Limited(c, l), tame));
        }
      }
    }
  }

  lemma SameFinal(c: Cfg, l: nat)
    requires Setting(c) && l < WIRE
    ensures FinalBlock(Limited(c, l), File(Limited(c, l))) == FinalBlock(c, File(c))
  {
  }

  // -------------------------------------------------------------- completion

  /** The packet the client waits for is under way. */
  predicate Coming(w: Sys) {
    exists p :: p in w.down && Awaits(w.next, p)
  }

  /** The test of `Recoverable`, for every run: at stage 0 a session is as good as one
      that waits, since what it sends by mistake is ignored. */
  predicate Completable(c: Cfg, w: Sys)
    requires c.opening.Opened? && c.Blk() > 0
  {
    var s, n := w.srv.stage, FinalBlock(c, File(c));
    w.done ||
    match w.srv.stat
    case NeedInit => true
    case AckOptions => true
    case DataTx => s >= 1 || w.next == 1 || Coming(w)
    case AckRx =>
      || w.next == s + 1 || Coming(w)
      || (First(c) < s < n && Num(s) != 0) || (s >= 1 && Retriable(c, w.srv))
    case Retransmit =>
      if Retriable(c, w.srv) then s >= 1 || w.next == 1 || Coming(w) else w.next == s == n && Coming(w)
    case ErrorAndStop => w.next == n && Coming(w)
    case Finish => w.next == n && Coming(w)
    case _ => false
  }

  lemma ComingSeen(c: Cfg, w: Sys)
    ensures Coming(w) <==> Coming(View(c, w))
  {
    hide Sift, Settled;
    if Coming(w) {
      var p :| p in w.down && Awaits(w.next, p);
      SiftIn(w.down, p);
      assert p in View(c, w).down;
    }
    if Coming(View(c, w)) {
      var p :| p in View(c, w).down && Awaits(w.next, p);
      SiftIn(w.down, p);
    }
  }

  lemma ComingAlike(u: Sys, v: Sys)
    requires u.next == v.next && AllLike(u.down, v.down)
    ensures Coming(u) <==> Coming(v)
  {
    forall i | 0 <= i < |u.down|
      ensures Awaits(u.next, u.down[i]) <==> Awaits(v.next, v.down[i])
    {
      assert Like(u.down[i], v.down[i]);
    }
  }

  lemma ComingExactly(c: Cfg, v: Sys)
    requires Setting(c) && ClientFine(c, v)
    ensures Coming(v) <==> Msg(c, v.next) in v.down
  {
    hide Msg, Prefix, Awaits;
    if v.next >= 1 {
      MsgsDiffer(c, v.next);
    }
    MsgsDiffer(c, v.next + 1);
  }

  lemma CompletableFollowed(c: Cfg, w: Sys, l: nat, evs: seq<Event>)
    requires Setting(c) && Follows(c, w, l, evs)
    ensures l < WIRE && (Completable(c, w) <==> Recoverable(Limited(c, l), Run(Limited(c, l), evs)))
  {
    hide RunFrom, Tame, Sift, Free, Linked, ClientFine, Loaded, Coming, Msg, Phases, Retriable;
    var d := Limited(c, l);
    var v := Run(d, evs);
    SameFinal(c, l);
    InvariantHolds(d, evs);
    ComingSeen(c, w);
    ComingAlike(View(c, w), v);
    if v.srv.stat != NeedInit && v.srv.stat != AckOptions {
      ComingExactly(d, v);
    }
    if v.srv.stat == AckRx || v.srv.stat == Retransmit {
      LinkedWhere(d, v);
      TwinsRetriable(c, l, View(c, w).srv, v.srv);
    }
  }

  lemma RecoverableEarly(c: Cfg, v: Sys, l: nat, l1: nat)
    requires Setting(c) && l < WIRE && l1 < WIRE && Early(v.srv)
    ensures Recoverable(Limited(c, l), v) <==> Recoverable(Limited(c, l1), v)
  {
  }

  lemma StaysIncomplete(c: Cfg, w: Sys, l: nat, evs: seq<Event>, ev: Event)
    requires Setting(c) && Follows(c, w, l, evs) && !Completable(c, w)
    ensures w.srv.Fits() && !Completable(c, Next(c, w, ev))
  {
    hide Next, RunFrom, Tame, Follows, Inv, Completable, Recoverable, Breaks;
    FollowsFits(c, w, l, evs);
    var d := Limited(c, l);
    var v := Run(d, evs);
    CompletableFollowed(c, w, l, evs);
    var l1, more := FollowsNext(c, w, l, evs, ev);
    CompletableFollowed(c, Next(c, w, ev), l1, evs + more);
    if more == [] {
      assert evs + more == evs;
      if l1 != l {
        RecoverableEarly(c, v, l, l1);
      }
    } else {
      assert more == [more[0]];
      RunThen(d, Init(d), evs, more[0]);
      FollowsTame(c, Next(c, w, ev), l, evs + more);
      TameThen(d, evs, more[0]);
      InvariantHolds(d, evs);
      StaysLost(d, v, more[0]);
    }
  }

  lemma {:induction false} FollowsTame(c: Cfg, w: Sys, l: nat, evs: seq<Event>)
    requires Setting(c) && Follows(c, w, l, evs)
    ensures l < WIRE && Tame(Limited(c, l), evs)
  {
    hide Tame, RunFrom;
  }

  lemma {:induction false} NeverCompleted(c: Cfg, evs: seq<Event>, more: seq<Event>)
    requires Setting(c) && !Completable(c, Run(c, evs))
    ensures !Completable(c, Run(c, evs + more))
    decreases |more|
  {
    hide Next, Completable, Follows;
    if more == [] {
      assert evs + more == evs;
    } else {
      var front := more[..|more| - 1];
      assert (evs + more)[..|evs + more| - 1] == evs + front;
      NeverCompleted(c, evs, front);
      var l, tame := RunFollows(c, evs + front);
      StaysIncomplete(c, Run(c, evs + front), l, tame, more[|more| - 1]);
    }
  }

  /** A session that has gone astray gets back to waiting. */
  lemma ComesBack(c: Cfg, w: Sys, l: nat, evs: seq<Event>) returns (more: seq<Event>, l1: nat)
    requires Setting(c) && Follows(c, w, l, evs)
    ensures w.srv.Fits() && l < WIRE && l1 < WIRE
    ensures var t := RunFrom(c, w, more);
            Follows(c, t, l1, evs) && !Astray(c, t.srv) && Run(Limited(c, l1), evs) == Run(Limited(c, l), evs)
    ensures l1 == l || Early(Run(Limited(c, l), evs).srv)
  {
    hide Next, RunFrom, Follows, Tame, Inv;
    FollowsFits(c, w, l, evs);
    NoEvents(c, w);
    more, l1 := [], l;
    var t := w;
    if Astray(c, t.srv) && t.srv.stat == Retransmit {
      AstrayEarly(c, w, l, evs);
      FollowsWhere(c, w, l, evs);
      l1 := RetriesAstray(c, w, l, evs, IDLE);
      AstrayTurn(c, w);
      t := Next(c, w, TURN);
      more := [TURN];
      OneEvent(c, w, TURN);
      FollowsFits(c, t, l1, evs);
    }
    if Astray(c, t.srv) {
      SendsAstray(c, t, l1, evs, IDLE);
      AstrayTurn(c, t);
      SentAstray(c, t, l1, evs);
      RunThen(c, w, more, TURN);
      more := more + [TURN];
    }
  }

  lemma AstrayTurn(c: Cfg, w: Sys)
    requires Setting(c) && w.srv.Fits() && Astray(c, w.srv)
    ensures Next(c, w, TURN) == ServerStep(c, w, IDLE, w.up)
    ensures w.srv.stat == Retransmit && !w.srv.crashed ==> Next(c, w, TURN).srv.stat == DataTx
  {
    hide Overwrite, Encode, ConstructData;
  }

  lemma SentAstray(c: Cfg, w: Sys, l: nat, evs: seq<Event>)
    requires Setting(c) && Follows(c, w, l, evs) && Astray(c, w.srv) && w.srv.stat == DataTx
    ensures ServerStep(c, w, IDLE, w.up).srv.stat == AckRx
  {
    hide Step, RunFrom, Tame, Free, Sift, Inv, Derails;
    InvariantHolds(Limited(c, l), evs);
    SeenWaiting(c, w, l, Run(Limited(c, l), evs));
    StageZeroSends(c, w.srv, IDLE);
  }

  /** The packets sent by mistake are lost. */
  lemma {:induction false} LosesJunk(c: Cfg, w: Sys, l: nat, evs: seq<Event>) returns (more: seq<Event>)
    requires Setting(c) && Follows(c, w, l, evs) && !Astray(c, w.srv)
    ensures w.srv.Fits() && l < WIRE && Mirrors(c, l, RunFrom(c, w, more), Run(Limited(c, l), evs))
    decreases |w.down|
  {
    hide RunFrom, Tame, Free, Sift, JunkFirst, Mirrors, Inv;
    if w.next <= 1 && exists i :: 0 <= i < |w.down| && Junk(w.down[i]) {
      var i :| 0 <= i < |w.down| && Junk(w.down[i]);
      var k := SiftMoves(w.down, i);
      JunkFirstMoves(w.down, i);
      OneEvent(c, w, LoseDown(i));
      var rest := LosesJunk(c, Next(c, w, LoseDown(i)), l, evs);
      RunTwo(c, w, [LoseDown(i)], rest);
      more := [LoseDown(i)] + rest;
    } else {
      more := [];
      NoEvents(c, w);
      if w.next <= 1 {
        SiftNone(w.down);
      }
      assert View(c, w) == w;
    }
  }

  lemma {:induction false} MirrorsRun(c: Cfg, l: nat, u: Sys, v: Sys, xs: seq<Event>)
    requires Setting(c) && Mirrors(c, l, u, v) && u.srv.Fits() && v.srv.Fits()
    requires Inv(Limited(c, l), v) && TameFrom(Limited(c, l), v, xs)
    ensures Mirrors(c, l, RunFrom(c, u, xs), RunFrom(Limited(c, l), v, xs))
  {
    hide Next, Mirrors, Inv, Breaks;
    MirrorsLimit(c, l, u, v);
    if xs != [] {
      var front, x := xs[..|xs| - 1], xs[|xs| - 1];
      MirrorsRun(c, l, u, v, front);
      TameKeeps(Limited(c, l), v, front);
      MirrorsNext(c, l, RunFrom(c, u, front), RunFrom(Limited(c, l), v, front), x, x);
    }
  }

  lemma MirrorsLimit(c: Cfg, l: nat, u: Sys, v: Sys)
    requires Mirrors(c, l, u, v)
    ensures l < WIRE && u.srv.Fits() && v.srv.Fits() && u.done == v.done
  {
  }

  /** A continuation that gives the client the whole length of the file. */
  lemma Completes(c: Cfg, w: Sys, l: nat, evs: seq<Event>) returns (more: seq<Event>)
    requires Setting(c) && Follows(c, w, l, evs) && Completable(c, w)
    ensures w.srv.Fits() && RunFrom(c, w, more).done
  {
    hide RunFrom, Follows, Tame, TameFrom, Completable, Recoverable, Mirrors, Inv;
    CompletableFollowed(c, w, l, evs);
    var v := Run(Limited(c, l), evs);
    var a, l1 := ComesBack(c, w, l, evs);
    var t := RunFrom(c, w, a);
    var b := LosesJunk(c, t, l1, evs);
    var u := RunFrom(c, t, b);
    if l1 != l {
      RecoverableEarly(c, v, l, l1);
    }
    FollowsWhere(c, t, l1, evs);
    var xs := Reaches(Limited(c, l1), v);
    MirrorsRun(c, l1, u, v, xs);
    MirrorsLimit(c, l1, RunFrom(c, u, xs), RunFrom(Limited(c, l1), v, xs));
    RunTwo(c, w, a, b);
    RunTwo(c, w, a + b, xs);
    more := a + b + xs;
  }

  /** The exact condition for a client to be served to the end from any state that any
      run reaches. */
  lemma CompletableExactly(c: Cfg, evs: seq<Event>)
    requires Setting(c)
    ensures Completable(c, Run(c, evs)) <==> exists more: seq<Event> :: Run(c, evs + more).done
  {
    hide RunFrom, Completable, Follows;
    if Completable(c, Run(c, evs)) {
      var l, tame := RunFollows(c, evs);
      var more := Completes(c, Run(c, evs), l, tame);
      RunTwo(c, Init(c), evs, more);
      assert Run(c, evs + more).done;
    } else {
      forall more: seq<Event>
        ensures !Run(c, evs + more).done
      {
        NeverCompleted(c, evs, more);
        DoneIsCompletable(c, Run(c, evs + more));
      }
    }
  }

  lemma DoneIsCompletable(c: Cfg, w: Sys)
    requires c.opening.Opened? && c.Blk() > 0
    ensures w.done ==> Completable(c, w)
  {
  }
}
