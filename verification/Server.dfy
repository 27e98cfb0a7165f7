/** The server: one socket for requests, and the list of running sessions. One
    iteration of its main loop takes at most one request and lets go of at most one
    finished session. Two things end the server: an exception out of the parser,
    which leaves the main loop, and one out of a session, whose thread then ends the
    whole process. */
module Server {
  import opened Octets
  import opened PacketBuffer
  import opened Requests
  import opened SessionModel
  import opened SessionLaws
  import opened Exceptions

  /** The shortest packet that is looked at. */
  const MIN_REQUEST: nat := 9

  /** A started session; sessions are numbered in the order they were started. */
  datatype Entry = Entry(id: nat, client: Addr, opt: Opts)

  /** The server's state. `reaped` are the sessions joined and erased, in order;
      `broken` stands for an exception that leaves the main loop or a session. */
  datatype Srv = Srv(pkt: seq<byte>, sessions: seq<Entry>, started: nat, reaped: seq<nat>, broken: bool)

  /** What one iteration meets: the sessions an exception has left by its beginning,
      what there is to receive, and the sessions that have finished by the time the
      list is gone through. */
  datatype Turn = Turn(rx: Rx, done: set<nat>, thrown: set<nat>)

  function Listening(): (r: Srv) {
    Srv(Zeros(BUF_SIZE), [], 0, [], false)
  }

  /** A request starts a session if it parses. It is parsed in the buffer it was
      received into, over what earlier packets have left there. */
  function Admit(s: Srv, rx: Rx): (r: Srv)
    requires |s.pkt| == BUF_SIZE
    ensures |r.pkt| == BUF_SIZE
  {
    if !rx.Packet? then s
    else
      var p := Clip(rx.bytes);
      var s1 := s.(pkt := Overwrite(s.pkt, p));
      if |p| < MIN_REQUEST then s1
      else
        match Parse(s1.pkt, |p|)
        case Fault(_, _) => s1.(broken := true)
        case Parsed(ok, opt) =>
          if ok then s1.(sessions := s.sessions + [Entry(s.started, rx.from, opt)], started := s.started + 1)
          else s1
  }

  /** The first finished session of the list. */
  function FirstDone(list: seq<Entry>, done: set<nat>): (i: nat)
    ensures i <= |list|
    ensures forall j :: 0 <= j < i ==> list[j].id !in done
    ensures i < |list| ==> list[i].id in done
  {
    if list == [] || list[0].id in done then 0 else 1 + FirstDone(list[1..], done)
  }

  function Reap(s: Srv, done: set<nat>): (r: Srv) {
    var i := FirstDone(s.sessions, done);
    if i == |s.sessions| then s
    else s.(sessions := s.sessions[..i] + s.sessions[i + 1..], reaped := s.reaped + [s.sessions[i].id])
  }

  /** A running session was left by an exception. */
  predicate AnyThrown(list: seq<Entry>, thrown: set<nat>) {
    exists i :: 0 <= i < |list| && list[i].id in thrown
  }

  function Iteration(s: Srv, t: Turn): (r: Srv)
    requires |s.pkt| == BUF_SIZE
    ensures |r.pkt| == BUF_SIZE
  {
    if s.broken then s
    else if AnyThrown(s.sessions, t.thrown) then s.(broken := true)
    else
      var s1 := Admit(s, t.rx);
      if s1.broken then s1 else Reap(s1, t.done)
  }

  function RunFrom(s: Srv, turns: seq<Turn>): (r: Srv)
    requires |s.pkt| == BUF_SIZE
    ensures |r.pkt| == BUF_SIZE
    decreases |turns|
  {
    if turns == [] then s else RunFrom(Iteration(s, turns[0]), turns[1..])
  }

  // ------------------------------------------------------ what ends the server

  /** A packet that ends the server: long enough to be parsed, and a request that
      throws. */
  predicate EndsServer(p: seq<byte>) {
    |p| >= MIN_REQUEST && Throws(p)
  }

  /** The exact condition, whatever earlier packets have left in the buffer. */
  lemma AdmitBreaksExactly(s: Srv, from: Addr, bytes: seq<byte>)
    requires |s.pkt| == BUF_SIZE && !s.broken
    ensures Admit(s, Packet(from, bytes)).broken <==> EndsServer(Clip(bytes))
  {
    hide Parse, Throws, Clip, Overwrite;
    var p := Clip(bytes);
    if |p| >= MIN_REQUEST {
      OverwriteIs(s.pkt, p);
      ThrowsExactly(p, s.pkt[|p|..]);
    }
  }

  lemma OverwriteIs(buf: seq<byte>, p: seq<byte>)
    requires |p| <= |buf|
    ensures Overwrite(buf, p) == p + buf[|p|..]
  {
  }

  /** The exact condition for a packet to start a session, one, for its sender and at the
      end of the list: it has at least nine bytes, asks for a file and does not throw. */
  lemma AdmitStartsExactly(s: Srv, from: Addr, bytes: seq<byte>)
    requires |s.pkt| == BUF_SIZE
    ensures var r, p := Admit(s, Packet(from, bytes)), Clip(bytes);
            if |p| >= 9 && AsksForFile(p, s.pkt[|p|..]) && !Throws(p)
            then exists opt :: r.sessions == s.sessions + [Entry(s.started, from, opt)] && r.started == s.started + 1
            else r.sessions == s.sessions && r.started == s.started
  {
    hide Parse, Throws, Clip, Overwrite, AsksForFile;
    var p := Clip(bytes);
    if |p| >= 9 {
      OverwriteIs(s.pkt, p);
      TakenExactly(p, s.pkt[|p|..]);
    }
  }

  /** A concrete packet: a read request for nine bytes without a NUL. */
  lemma NoNulEndsServer(s: Srv, from: Addr)
    requires |s.pkt| == BUF_SIZE && !s.broken
    ensures Admit(s, Packet(from, [0, 1] + Fill(7, 97))).broken
  {
    hide Admit, UpToNul;
    var p := [0, 1] + Fill(7, 97);
    AdmitBreaksExactly(s, from, p);
    BeNatTwo(0, 1);
    assert p[0..2] == [0, 1] && p[2..] == Fill(7, 97) && Pow256(2) == 65536;
    UpToNulUnique(p[2..], p[2..]);
  }

  /** A turn in which nothing can end the server. */
  predicate Peaceful(t: Turn) {
    (t.rx.Packet? ==> !EndsServer(Clip(t.rx.bytes))) && t.thrown == {}
  }

  lemma IterationBreaksExactly(s: Srv, t: Turn)
    requires |s.pkt| == BUF_SIZE && !s.broken
    ensures Iteration(s, t).broken <==>
            AnyThrown(s.sessions, t.thrown) || (t.rx.Packet? && EndsServer(Clip(t.rx.bytes)))
  {
    hide Parse, EndsServer, Clip, Overwrite, AnyThrown, FirstDone;
    if t.rx.Packet? {
      AdmitBreaksExactly(s, t.rx.from, t.rx.bytes);
    }
  }

  lemma PeacefulIteration(s: Srv, t: Turn)
    requires |s.pkt| == BUF_SIZE && !s.broken && Peaceful(t)
    ensures !Iteration(s, t).broken
  {
    hide Iteration, EndsServer, Clip;
    IterationBreaksExactly(s, t);
  }

  /** A packet that ends the server arrives in turn `k`. */
  predicate EndsAt(turns: seq<Turn>, k: nat) {
    k < |turns| && turns[k].rx.Packet? && EndsServer(Clip(turns[k].rx.bytes))
  }

  /** As long as no session throws, the server ends if and only if such a packet
      arrives. */
  lemma {:induction false} ServerEndsExactly(s: Srv, turns: seq<Turn>)
    requires |s.pkt| == BUF_SIZE && !s.broken
    requires forall k :: 0 <= k < |turns| ==> turns[k].thrown == {}
    ensures RunFrom(s, turns).broken <==> exists k: nat :: EndsAt(turns, k)
    decreases |turns|
  {
    hide Iteration, EndsServer, Clip;
    if turns != [] {
      var r, rest := Iteration(s, turns[0]), turns[1..];
      IterationBreaksExactly(s, turns[0]);
      if r.broken {
        BrokenStays(r, rest);
        assert EndsAt(turns, 0);
      } else {
        ServerEndsExactly(r, rest);
        if k: nat :| EndsAt(rest, k) {
          assert EndsAt(turns, k + 1);
        }
        if k: nat :| EndsAt(turns, k) {
          assert k > 0 && EndsAt(rest, k - 1);
        }
      }
    }
  }

  lemma {:induction false} BrokenStays(s: Srv, turns: seq<Turn>)
    requires |s.pkt| == BUF_SIZE && s.broken
    ensures RunFrom(s, turns) == s
    decreases |turns|
  {
    if turns != [] {
      BrokenStays(s, turns[1..]);
    }
  }

  // ------------------------------------------------------------- conservation

  /** Sessions stand in the list in the order they were started; each one started is
      in the list or has been erased, never both, and none was erased twice. */
  ghost predicate Orderly(s: Srv) {
    |s.pkt| == BUF_SIZE && ByStart(s) && Apart(s) && Covered(s)
  }

  ghost predicate ByStart(s: Srv) {
    && (forall i, j :: 0 <= i < j < |s.sessions| ==> s.sessions[i].id < s.sessions[j].id)
    && (forall i :: 0 <= i < |s.sessions| ==> s.sessions[i].id < s.started)
  }

  ghost predicate Apart(s: Srv) {
    && (forall i :: 0 <= i < |s.sessions| ==> s.sessions[i].id !in s.reaped)
    && (forall i, j :: 0 <= i < j < |s.reaped| ==> s.reaped[i] != s.reaped[j])
    && (forall i :: 0 <= i < |s.reaped| ==> s.reaped[i] < s.started)
  }

  ghost predicate Covered(s: Srv) {
    forall id: nat :: id < s.started ==> Listed(s, id) || id in s.reaped
  }

  ghost predicate Listed(s: Srv, id: nat) {
    exists i :: 0 <= i < |s.sessions| && s.sessions[i].id == id
  }

  lemma AdmitKeeps(s: Srv, rx: Rx)
    requires Orderly(s)
    ensures Orderly(Admit(s, rx))
    ensures s.sessions <= Admit(s, rx).sessions && Admit(s, rx).reaped == s.reaped
  {
    hide Overwrite, Parse, Clip, Listed;
    var r := Admit(s, rx);
    assert ByStart(r) && Apart(r);
    forall id: nat | id < r.started ensures Listed(r, id) || id in r.reaped {
      StillListed(s, r, id);
      if id == s.started {
        NewListed(r);
      }
    }
  }

  lemma StillListed(s: Srv, r: Srv, id: nat)
    requires s.sessions <= r.sessions
    ensures Listed(s, id) ==> Listed(r, id)
  {
    if Listed(s, id) {
      var i :| 0 <= i < |s.sessions| && s.sessions[i].id == id;
      assert r.sessions[i].id == id;
    }
  }

  lemma NewListed(s: Srv)
    requires s.sessions != []
    ensures Listed(s, s.sessions[|s.sessions| - 1].id)
  {
  }

  /** The list without its entry `f`. */
  lemma Without(s: Srv, r: Srv, f: nat)
    requires f < |s.sessions| && r.sessions == s.sessions[..f] + s.sessions[f + 1..]
    ensures |r.sessions| == |s.sessions| - 1
    ensures forall i :: 0 <= i < |r.sessions| ==> r.sessions[i] == s.sessions[if i < f then i else i + 1]
    ensures forall id: nat :: Listed(s, id) && id != s.sessions[f].id ==> Listed(r, id)
  {
    forall id: nat | Listed(s, id) && id != s.sessions[f].id ensures Listed(r, id) {
      var i :| 0 <= i < |s.sessions| && s.sessions[i].id == id;
      assert r.sessions[if i < f then i else i - 1].id == id;
    }
  }

  lemma ReapKeeps(s: Srv, done: set<nat>)
    requires Orderly(s)
    ensures Orderly(Reap(s, done))
  {
    hide FirstDone, Listed;
    var r, f := Reap(s, done), FirstDone(s.sessions, done);
    if f < |s.sessions| {
      Without(s, r, f);
      assert ByStart(r);
      ReapedApart(s, r, f);
      forall id: nat | id < r.started ensures Listed(r, id) || id in r.reaped {
        assert r.reaped[|s.reaped|] == s.sessions[f].id;
        if id in s.reaped {
          assert id in r.reaped;
        }
      }
    }
  }

  lemma ReapedApart(s: Srv, r: Srv, f: nat)
    requires ByStart(s) && Apart(s) && f < |s.sessions| && |r.sessions| == |s.sessions| - 1
    requires forall i :: 0 <= i < |r.sessions| ==> r.sessions[i] == s.sessions[if i < f then i else i + 1]
    requires r.reaped == s.reaped + [s.sessions[f].id] && r.started == s.started
    ensures Apart(r)
  {
    forall i | 0 <= i < |r.sessions| ensures r.sessions[i].id !in r.reaped {
      var id := s.sessions[if i < f then i else i + 1].id;
      assert id !in s.reaped && id != s.sessions[f].id;
    }
  }

  lemma EndKeeps(s: Srv)
    requires Orderly(s)
    ensures Orderly(s.(broken := true))
  {
    forall id: nat | Listed(s, id) ensures Listed(s.(broken := true), id) {
    }
  }

  lemma IterationKeeps(s: Srv, t: Turn)
    requires Orderly(s)
    ensures Orderly(Iteration(s, t))
  {
    hide Orderly, Admit, Reap, AnyThrown;
    EndKeeps(s);
    OrderlySize(s);
    AdmitKeeps(s, t.rx);
    ReapKeeps(Admit(s, t.rx), t.done);
  }

  lemma OrderlySize(s: Srv)
    requires Orderly(s)
    ensures |s.pkt| == BUF_SIZE
  {
  }

  /** Conservation, over every run of the server. */
  lemma {:induction false} SessionsConserved(s: Srv, turns: seq<Turn>)
    requires Orderly(s)
    ensures Orderly(RunFrom(s, turns))
    decreases |turns|
  {
    hide ByStart, Apart, Covered, Iteration;
    if turns != [] {
      IterationKeeps(s, turns[0]);
      SessionsConserved(Iteration(s, turns[0]), turns[1..]);
    }
  }

  // ------------------------------------------------------------------ reaping

  /** What an iteration does to the session at index `i`: it is erased, and then it
      had finished; or it stays, at most one place further to the front, and for
      certain one place further if it has finished. */
  lemma OneIteration(s: Srv, t: Turn, i: nat)
    requires Orderly(s) && !s.broken && i < |s.sessions|
    ensures var r, id := Iteration(s, t), s.sessions[i].id;
            && Orderly(r)
            && (!r.broken ==>
                  || (id in r.reaped && id in t.done && FirstDone(s.sessions, t.done) == i)
                  || (0 < i <= |r.sessions| && r.sessions[i - 1] == s.sessions[i] && FirstDone(s.sessions, t.done) < i)
                  || (i < |r.sessions| && r.sessions[i] == s.sessions[i] && id !in t.done
                      && FirstDone(s.sessions, t.done) > i))
  {
    hide Admit, FirstDone, ByStart, Apart, Covered, AnyThrown;
    IterationKeeps(s, t);
    var a := Admit(s, t.rx);
    AdmitKeeps(s, t.rx);
    if !a.broken {
      ReapKeeps(a, t.done);
      FirstOfPrefix(s.sessions, a.sessions, t.done);
    }
  }

  lemma {:induction false} FirstOfPrefix(list: seq<Entry>, longer: seq<Entry>, done: set<nat>)
    requires list <= longer
    ensures FirstDone(list, done) < |list| ==> FirstDone(longer, done) == FirstDone(list, done)
    ensures FirstDone(list, done) == |list| ==> FirstDone(longer, done) >= |list|
  {
    var f, g := FirstDone(list, done), FirstDone(longer, done);
    if f < |list| {
      assert longer[f].id in done;
    }
    if g < |list| {
      assert list[g].id in done;
    }
  }

  lemma {:induction false} ErasedStays(s: Srv, turns: seq<Turn>, id: nat)
    requires |s.pkt| == BUF_SIZE && id in s.reaped
    ensures id in RunFrom(s, turns).reaped
    decreases |turns|
  {
    hide Parse, Overwrite, Clip, AnyThrown, FirstDone;
    if turns != [] {
      ErasedStays(Iteration(s, turns[0]), turns[1..], id);
    }
  }

  /** Bounded reaping: a session at index `i` that is finished from iteration `from`
      on is erased at the latest in iteration `from + i`, whatever requests arrive
      and whichever other sessions finish, as long as nothing ends the server by
      then. */
  lemma {:induction false} BoundedReaping(s: Srv, turns: seq<Turn>, i: nat, from: nat)
    requires Orderly(s) && !s.broken && i < |s.sessions|
    requires from + i < |turns|
    requires forall k :: from <= k < |turns| ==> s.sessions[i].id in turns[k].done
    requires forall k :: 0 <= k <= from + i ==> Peaceful(turns[k])
    ensures s.sessions[i].id in RunFrom(s, turns).reaped
    decreases |turns|
  {
    hide ByStart, Apart, Covered, Iteration, Peaceful, FirstDone;
    var id := s.sessions[i].id;
    var r, rest := Iteration(s, turns[0]), turns[1..];
    PeacefulIteration(s, turns[0]);
    OneIteration(s, turns[0], i);
    if id in r.reaped {
      ErasedStays(r, rest, id);
    } else if 0 < i <= |r.sessions| && r.sessions[i - 1] == s.sessions[i] {
      BoundedReaping(r, rest, i - 1, if from > 0 then from - 1 else 0);
    } else {
      BoundedReaping(r, rest, i, from - 1);
    }
  }

  /** How many finished sessions stand before index `i`. */
  function Ahead(list: seq<Entry>, i: nat, done: set<nat>): (r: nat)
    requires i <= |list|
    ensures r <= i
  {
    if i == 0 then 0 else Ahead(list, i - 1, done) + (if list[i - 1].id in done then 1 else 0)
  }

  lemma {:induction false} NoneAhead(list: seq<Entry>, i: nat, done: set<nat>)
    requires i <= |list| && forall j :: 0 <= j < i ==> list[j].id !in done
    ensures Ahead(list, i, done) == 0
  {
    if i > 0 {
      NoneAhead(list, i - 1, done);
    }
  }

  lemma {:induction false} SameAhead(a: seq<Entry>, b: seq<Entry>, i: nat, done: set<nat>)
    requires i <= |a| && i <= |b| && a[..i] == b[..i]
    ensures Ahead(a, i, done) == Ahead(b, i, done)
  {
    if i > 0 {
      assert a[i - 1] == a[..i][i - 1] && b[i - 1] == b[..i][i - 1];
      assert a[..i - 1] == a[..i][..i - 1] && b[..i - 1] == b[..i][..i - 1];
      SameAhead(a, b, i - 1, done);
    }
  }

  /** Erasing the first finished session leaves one fewer ahead of those behind it. */
  lemma {:induction false} OneFewerAhead(list: seq<Entry>, i: nat, done: set<nat>)
    requires i <= |list| && FirstDone(list, done) < i
    ensures var f := FirstDone(list, done);
            Ahead(list, i, done) == 1 + Ahead(list[..f] + list[f + 1..], i - 1, done)
  {
    hide FirstDone;
    var f := FirstDone(list, done);
    var rest := list[..f] + list[f + 1..];
    if f == i - 1 {
      NoneAhead(list, f, done);
      NoneAhead(rest, f, done);
    } else {
      OneFewerAhead(list, i - 1, done);
      assert rest[i - 2] == list[i - 1];
    }
  }

  lemma {:induction false} AheadAfter(s: Srv, t: Turn, i: nat)
    requires Orderly(s) && !Iteration(s, t).broken && i < |s.sessions| && FirstDone(s.sessions, t.done) < i
    ensures var r := Iteration(s, t);
            && i <= |r.sessions|
            && Ahead(s.sessions, i, t.done) == 1 + Ahead(r.sessions, i - 1, t.done)
  {
    hide ByStart, Apart, Covered, Admit, Ahead, FirstDone, AnyThrown;
    var a, f := Admit(s, t.rx), FirstDone(s.sessions, t.done);
    AdmitKeeps(s, t.rx);
    FirstOfPrefix(s.sessions, a.sessions, t.done);
    OneFewerAhead(a.sessions, i, t.done);
    assert s.sessions[..i] == a.sessions[..i];
    SameAhead(s.sessions, a.sessions, i, t.done);
  }

  /** The exact wait: while the same sessions are seen finished, the one at index `i`
      has been erased if and only if there were more iterations than finished
      sessions ahead of it. So the bound `i` is met when all before it are finished. */
  lemma {:induction false} ReapedExactly(s: Srv, turns: seq<Turn>, i: nat, done: set<nat>)
    requires Orderly(s) && !s.broken && i < |s.sessions| && s.sessions[i].id in done
    requires forall k :: 0 <= k < |turns| ==> turns[k].done == done && Peaceful(turns[k])
    ensures s.sessions[i].id in RunFrom(s, turns).reaped <==> |turns| > Ahead(s.sessions, i, done)
    decreases |turns|
  {
    hide ByStart, Apart, Covered, Iteration, Ahead, FirstDone, Peaceful;
    var id := s.sessions[i].id;
    if turns == [] {
      NotYetReaped(s, i);
      return;
    }
    var r, rest := Iteration(s, turns[0]), turns[1..];
    PeacefulIteration(s, turns[0]);
    OneIteration(s, turns[0], i);
    if FirstDone(s.sessions, done) < i {
      AheadAfter(s, turns[0], i);
      ReapedExactly(r, rest, i - 1, done);
    } else {
      NoneAhead(s.sessions, i, done);
      ErasedStays(r, rest, id);
    }
  }

  lemma NotYetReaped(s: Srv, i: nat)
    requires Orderly(s) && i < |s.sessions|
    ensures s.sessions[i].id !in s.reaped
  {
  }

  /** No session is erased before it has finished. */
  lemma {:induction false} ErasedOnlyWhenDone(s: Srv, turns: seq<Turn>, id: nat)
    requires |s.pkt| == BUF_SIZE && id in RunFrom(s, turns).reaped && id !in s.reaped
    ensures exists k :: 0 <= k < |turns| && id in turns[k].done
    decreases |turns|
  {
    hide Parse, Overwrite, Clip, AnyThrown;
    var r, rest := Iteration(s, turns[0]), turns[1..];
    if id in r.reaped {
      assert id in turns[0].done;
    } else {
      ErasedOnlyWhenDone(r, rest, id);
      var k :| 0 <= k < |rest| && id in rest[k].done;
      assert id in turns[k + 1].done;
    }
  }

  // -------------------------------------------------- the sessions in the list

  /** The server sees a session as finished exactly when its state machine, after
      the events its thread has met so far, is in state `finish`, and as thrown when
      an exception has left it. */
  ghost predicate Sees(turns: seq<Turn>, id: nat, c: Cfg, met: seq<seq<Ev>>)
    requires c.Valid()
  {
    && |met| == |turns|
    && (forall k, m :: 0 <= k <= m < |met| ==> met[k] <= met[m])
    && (forall k :: 0 <= k < |turns| ==> (id in turns[k].done <==> Exec(c, met[k]).stat == Finish))
    && (forall k :: 0 <= k < |turns| ==> (id in turns[k].thrown <==> Exec(c, met[k]).crashed))
  }

  lemma EndedLater(turns: seq<Turn>, id: nat, c: Cfg, met: seq<seq<Ev>>, k: nat, m: nat)
    requires c.Valid() && Sees(turns, id, c, met) && k <= m < |turns|
    requires Exec(c, met[k]).stat == Finish || Exec(c, met[k]).crashed
    ensures Exec(c, met[m]) == Exec(c, met[k])
  {
    hide ExecFrom;
    assert met[m][..|met[k]|] == met[k];
    StaysEnded(c, met[m], |met[k]|);
  }

  /** A session that reaches `finish` is joined and erased within as many more
      iterations as its place in the list, and not before it reaches `finish`. */
  lemma {:induction false} EndedSessionsAreReaped(
    s: Srv, turns: seq<Turn>, i: nat, c: Cfg, met: seq<seq<Ev>>, from: nat)
    requires Orderly(s) && !s.broken && i < |s.sessions| && c.Valid()
    requires Sees(turns, s.sessions[i].id, c, met)
    requires from < |turns| && Exec(c, met[from]).stat == Finish
    requires forall k :: 0 <= k <= from + i && k < |turns| ==> Peaceful(turns[k])
    ensures from + i < |turns| ==> s.sessions[i].id in RunFrom(s, turns).reaped
    ensures (forall k :: 0 <= k < from ==> Exec(c, met[k]).stat != Finish) ==>
              s.sessions[i].id !in RunFrom(s, turns[..from]).reaped
  {
    hide ExecFrom, RunFrom, Peaceful, ByStart, Covered;
    var id := s.sessions[i].id;
    forall k | from <= k < |turns| ensures id in turns[k].done {
      EndedLater(turns, id, c, met, from, k);
    }
    if from + i < |turns| {
      BoundedReaping(s, turns, i, from);
    }
    if (forall k :: 0 <= k < from ==> Exec(c, met[k]).stat != Finish) && id in RunFrom(s, turns[..from]).reaped {
      ErasedOnlyWhenDone(s, turns[..from], id);
      assert false;
    }
  }

  /** A session in the list that has thrown, and was never seen finished before, ends
      the server. */
  lemma {:induction false} ThrownEnds(s: Srv, turns: seq<Turn>, i: nat, k: nat)
    requires Orderly(s) && i < |s.sessions| && k < |turns|
    requires forall j :: 0 <= j <= k ==> s.sessions[i].id !in turns[j].done
    requires s.sessions[i].id in turns[k].thrown
    ensures RunFrom(s, turns).broken
    decreases |turns|
  {
    hide ByStart, Apart, Covered, Iteration, FirstDone;
    if s.broken {
      BrokenStays(s, turns);
      return;
    }
    var r, rest := Iteration(s, turns[0]), turns[1..];
    IterationBreaksExactly(s, turns[0]);
    OneIteration(s, turns[0], i);
    assert k == 0 ==> AnyThrown(s.sessions, turns[0].thrown);
    if r.broken {
      BrokenStays(r, rest);
    } else {
      var i' := if 0 < i <= |r.sessions| && r.sessions[i - 1] == s.sessions[i] then i - 1 else i;
      assert forall j :: 0 <= j < |rest| ==> rest[j] == turns[j + 1];
      ThrownEnds(r, rest, i', k - 1);
    }
  }

  /** A session that an exception leaves takes the server with it. */
  lemma {:induction false} CrashEndsServer(s: Srv, turns: seq<Turn>, i: nat, c: Cfg, met: seq<seq<Ev>>, k: nat)
    requires Orderly(s) && i < |s.sessions| && c.Valid()
    requires Sees(turns, s.sessions[i].id, c, met)
    requires k < |turns| && Exec(c, met[k]).crashed
    ensures RunFrom(s, turns).broken
  {
    hide ExecFrom, RunFrom, ByStart, Apart, Covered;
    var id := s.sessions[i].id;
    CrashedWhere(c, met[k]);
    forall j | 0 <= j <= k ensures id !in turns[j].done {
      if id in turns[j].done {
        EndedLater(turns, id, c, met, j, k);
      }
    }
    ThrownEnds(s, turns, i, k);
  }

  // ------------------------------------------------------------- the requests

  /** Which sessions are started is a matter of the packets alone, as long as they
      are confined: what earlier packets left in the buffer plays no part. */
  lemma {:induction false} StaleBytesIgnored(s: Srv, stale: seq<byte>, turns: seq<Turn>)
    requires |s.pkt| == BUF_SIZE && |stale| == BUF_SIZE
    requires forall k :: 0 <= k < |turns| && turns[k].rx.Packet? ==> Confined(Clip(turns[k].rx.bytes))
    ensures var a, b := RunFrom(s, turns), RunFrom(s.(pkt := stale), turns);
            a.(pkt := b.pkt) == b
    decreases |turns|
  {
    hide Reap, Parse, Confined, Overwrite, AnyThrown;
    if turns != [] {
      var a, b := Iteration(s, turns[0]), Iteration(s.(pkt := stale), turns[0]);
      if turns[0].rx.Packet? {
        var p := Clip(turns[0].rx.bytes);
        ParsesAlike(s.pkt, stale, p);
      }
      ReapIgnores(Admit(s, turns[0].rx), Admit(s.(pkt := stale), turns[0].rx).pkt, turns[0].done);
      assert a.(pkt := b.pkt) == b;
      StaleBytesIgnored(a, b.pkt, turns[1..]);
    }
  }

  lemma ReapIgnores(s: Srv, pkt: seq<byte>, done: set<nat>)
    ensures Reap(s.(pkt := pkt), done) == Reap(s, done).(pkt := pkt)
  {
  }

  lemma ParsesAlike(x: seq<byte>, y: seq<byte>, p: seq<byte>)
    requires |x| == |y| == BUF_SIZE && |p| <= BUF_SIZE && Confined(p)
    ensures Parse(Overwrite(x, p), |p|) == Parse(p, |p|) == Parse(Overwrite(y, p), |p|)
  {
    hide Parse, Confined;
    assert Overwrite(x, p) == p + x[|p|..] && Overwrite(y, p) == p + y[|p|..];
    ParserStaysInside(p, x[|p|..]);
    ParserStaysInside(p, y[|p|..]);
  }

  /** A well-formed request starts one session, at the end of the list, with the
      options it asks for, if and only if it has at least nine bytes. */
  lemma RequestStartsSession(s: Srv, from: Addr, op: nat, filename: seq<byte>, mode: seq<byte>, pairs: seq<Pair>)
    requires |s.pkt| == BUF_SIZE && (op == 1 || op == 2)
    requires NulFree(filename) && filename != [] && NulFree(mode) && mode != []
    requires forall i :: 0 <= i < |pairs| ==> WellFormedPair(pairs[i])
    requires |EncodeRequest(op, filename, mode, pairs)| <= BUF_SIZE
    ensures var p := EncodeRequest(op, filename, mode, pairs);
            var opt := WithPairs(DEFAULTS.(req := if op == 1 then Read else Write,
                                           filename := filename, mode := ModeOf(Lower(mode))), pairs);
            var r := Admit(s, Packet(from, p));
            && (!s.broken ==> !r.broken)
            && r.sessions == s.sessions + if |p| >= 9 then [Entry(s.started, from, opt)] else []
  {
    hide Parse, EncodeRequest, WithPairs, ModeOf;
    var p := EncodeRequest(op, filename, mode, pairs);
    assert Overwrite(s.pkt, p) == p + s.pkt[|p|..];
    ParseRoundTrip(op, filename, mode, pairs, s.pkt[|p|..]);
  }

  // -------------------------------------------------------------- the program

  class Listener {
    const pkt: SmBufEx
    var sessions: seq<Entry>
    var started: nat
    var reaped: seq<nat>
    var broken: bool

    ghost predicate Valid()
      reads this, pkt
    {
      pkt.Valid() && pkt.data.Length == BUF_SIZE && pkt.bigEndian
    }

    ghost function Value(): (r: Srv)
      reads this, pkt, pkt.data
    {
      Srv(pkt.data[..], sessions, started, reaped, broken)
    }

    constructor ()
      ensures Valid() && fresh(pkt) && fresh(pkt.data) && Value() == Listening()
    {
      pkt := new SmBufEx(BUF_SIZE);
      sessions, started, reaped, broken := [], 0, [], false;
    }

    /** Receives what there is; a request that parses becomes a session. */
    method Accept(rx: Rx)
      requires Valid()
      modifies this, pkt.data
      ensures Valid() && Value() == Admit(old(Value()), rx)
    {
      hide Parse, Overwrite;
      if !rx.Packet? {
        return;
      }
      var p := Clip(rx.bytes);
      pkt.Store(0, p);
      assert pkt.data[..] == Overwrite(old(pkt.data[..]), p) by {
        SpliceAtStart(old(pkt.data[..]), p);
      }
      if |p| >= MIN_REQUEST {
        var opt := new Options();
        var r := opt.BufferParse(pkt, |p|);
        match r
        case Fault(_, _) => broken := true;
        case Parsed(ok, parsed) =>
          if ok {
            sessions := sessions + [Entry(started, rx.from, parsed)];
            started := started + 1;
          }
      }
    }

    /** Goes through the list up to the first finished session and erases it. */
    method EraseFinished(done: set<nat>)
      requires Valid()
      modifies this
      ensures Valid() && Value() == Reap(old(Value()), done)
    {
      var i := 0;
      while i < |sessions|
        invariant 0 <= i <= |sessions|
        invariant Valid() && Value() == old(Value())
        invariant forall j :: 0 <= j < i ==> sessions[j].id !in done
      {
        if sessions[i].id in done {
          FirstIs(sessions, done, i);
          reaped := reaped + [sessions[i].id];
          sessions := sessions[..i] + sessions[i + 1..];
          return;
        }
        i := i + 1;
      }
    }

    method MainLoop(turns: seq<Turn>)
      requires Valid()
      modifies this, pkt.data
      ensures Valid() && Value() == RunFrom(old(Value()), turns)
    {
      hide Admit, Reap, AnyThrown;
      var k := 0;
      while k < |turns| && !broken
        invariant 0 <= k <= |turns| && Valid()
        invariant RunFrom(Value(), turns[k..]) == RunFrom(old(Value()), turns)
      {
        assert turns[k..][0] == turns[k] && turns[k..][1..] == turns[k + 1..];
        if AnyThrown(sessions, turns[k].thrown) {
          broken := true;
        } else {
          Accept(turns[k].rx);
          if !broken {
            EraseFinished(turns[k].done);
          }
        }
        k := k + 1;
      }
      if broken {
        BrokenStays(Value(), turns[k..]);
      }
    }
  }

  lemma SpliceAtStart(buf: seq<byte>, p: seq<byte>)
    requires |p| <= |buf|
    ensures Splice(buf, 0, p) == Overwrite(buf, p)
  {
  }

  lemma {:induction false} FirstIs(list: seq<Entry>, done: set<nat>, i: nat)
    requires i < |list| && list[i].id in done && forall j :: 0 <= j < i ==> list[j].id !in done
    ensures FirstDone(list, done) == i
  {
  }
}
